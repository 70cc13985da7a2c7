/**
 * The text form of IPK25-CHAT used over TCP: the lines the client builds,
 * the case-insensitive classifier of lines received from the server, and
 * the reading of a REPLY line.
 */
module TcpCodec {
  import opened Protocol
  import opened Seqs

  /** Every message ends with CR LF; the terminator is two characters long. */
  const END_OF_MESSAGE: string := "\r\n"
  const BYTES_IN_END_OF_MESSAGE := 2

  /** The longest line accepted from the server: "MSG FROM", a space, the
      longest display name, " IS ", the longest content and the terminator. */
  const MAX_MSG_SIZE := 8 + 1 + DISPLAY_NAME_MAX_LENGTH + 4 + MSG_CONTENT_MAX_LENGTH + BYTES_IN_END_OF_MESSAGE

  // Builders of the lines the client sends.

  function JoinLine(channelId: string, displayName: string): string {
    "JOIN " + channelId + " AS " + displayName + END_OF_MESSAGE
  }

  function MsgLine(displayName: string, content: string): string {
    "MSG FROM " + displayName + " IS " + content + END_OF_MESSAGE
  }

  function AuthLine(username: string, displayName: string, secret: string): string {
    "AUTH " + username + " AS " + displayName + " USING " + secret + END_OF_MESSAGE
  }

  function ErrLine(displayName: string, content: string): string {
    "ERR FROM " + displayName + " IS " + content + END_OF_MESSAGE
  }

  function ByeLine(displayName: string): string {
    "BYE FROM " + displayName + END_OF_MESSAGE
  }

  /** The line that carries a user command. */
  function CommandLine(cmd: Command<string>, displayName: string): string {
    match cmd
    case AuthCmd(username, secret, _) => AuthLine(username, displayName, secret)
    case JoinCmd(channelId) => JoinLine(channelId, displayName)
    case MsgCmd(content) => MsgLine(displayName, content)
  }

  /** The longest MSG line the client can build, with a name and a content
      at their limits, is exactly MAX_MSG_SIZE long, and no MSG line within
      the limits is longer. */
  lemma MaxMsgSizeIsLongestMsgLine(displayName: string, content: string)
    requires |displayName| <= DISPLAY_NAME_MAX_LENGTH && |content| <= MSG_CONTENT_MAX_LENGTH
    ensures |MsgLine(displayName, content)| <= MAX_MSG_SIZE
    ensures |displayName| == DISPLAY_NAME_MAX_LENGTH && |content| == MSG_CONTENT_MAX_LENGTH ==>
      |MsgLine(displayName, content)| == MAX_MSG_SIZE
  {
    assert |MsgLine(displayName, content)| == 9 + |displayName| + 4 + |content| + 2;
  }

  // Case folding as the classic C locale does it: only a-z change.

  function UpperChar(c: char): (u: char)
    ensures 'a' <= c <= 'z' ==> u as int == c as int - 32
    ensures !('a' <= c <= 'z') ==> u == c
  {
    if 'a' <= c <= 'z' then (c as int - 32) as char else c
  }

  function Upper(s: string): (r: string)
    ensures |r| == |s| && forall i :: 0 <= i < |s| ==> r[i] == UpperChar(s[i])
  {
    seq(|s|, i requires 0 <= i < |s| => UpperChar(s[i]))
  }

  /** Folding twice is folding once. */
  lemma UpperIdempotent(s: string)
    ensures Upper(Upper(s)) == Upper(s)
  {
    assert forall i :: 0 <= i < |s| ==> UpperChar(UpperChar(s[i])) == UpperChar(s[i]);
  }

  /** Folding commutes with taking a prefix. */
  lemma UpperPrefix(s: string, n: nat)
    requires n <= |s|
    ensures Upper(s[..n]) == Upper(s)[..n]
  {
  }

  predicate StartsWith(s: string, p: string) {
    |p| <= |s| && s[..|p|] == p
  }

  /** Whether a line begins with `word`, in any letter case. */
  predicate HasPrefixIgnoringCase(s: string, word: string) {
    |word| <= |s| && Upper(s[..|word|]) == word
  }

  /** The type of a line from the server: the first of MSG, ERR, BYE and
      REPLY that its upper-cased first five characters start with; Unknown
      for anything else, and for lines shorter than three characters. */
  function GetServerMsgType(msg: string): (t: MsgType)
    ensures t in {Msg, Err, Bye, Reply, Unknown}
    ensures |msg| < 3 ==> t == Unknown
  {
    if |msg| >= 3 then
      var prefix := Upper(msg[..if |msg| < 5 then |msg| else 5]);
      if StartsWith(prefix, "MSG") then Msg
      else if StartsWith(prefix, "ERR") then Err
      else if StartsWith(prefix, "BYE") then Bye
      else if StartsWith(prefix, "REPLY") then Reply
      else Unknown
    else Unknown
  }

  /** The prefix test on the first five upper-cased characters is the
      case-insensitive prefix test on the whole line. */
  lemma {:induction false} PrefixWindow(msg: string, word: string)
    requires |word| <= 5
    ensures var prefix := Upper(msg[..if |msg| < 5 then |msg| else 5]);
      StartsWith(prefix, word) <==> HasPrefixIgnoringCase(msg, word)
  {
    var n := if |msg| < 5 then |msg| else 5;
    var prefix := Upper(msg[..n]);
    if |word| <= n {
      assert msg[..n][..|word|] == msg[..|word|];
      UpperPrefix(msg[..n], |word|);
    }
  }

  /** The classifier, stated on the whole line: each type is recognised by
      its case-insensitive prefix, in the order MSG, ERR, BYE, REPLY. */
  lemma {:induction false} ClassifierByPrefix(msg: string)
    ensures GetServerMsgType(msg) == Msg <==> |msg| >= 3 && HasPrefixIgnoringCase(msg, "MSG")
    ensures GetServerMsgType(msg) == Err <==>
      |msg| >= 3 && !HasPrefixIgnoringCase(msg, "MSG") && HasPrefixIgnoringCase(msg, "ERR")
    ensures GetServerMsgType(msg) == Bye <==>
      && |msg| >= 3 && !HasPrefixIgnoringCase(msg, "MSG") && !HasPrefixIgnoringCase(msg, "ERR")
      && HasPrefixIgnoringCase(msg, "BYE")
    ensures GetServerMsgType(msg) == Reply <==>
      && !HasPrefixIgnoringCase(msg, "MSG") && !HasPrefixIgnoringCase(msg, "ERR")
      && !HasPrefixIgnoringCase(msg, "BYE") && HasPrefixIgnoringCase(msg, "REPLY")
  {
    PrefixWindow(msg, "MSG");
    PrefixWindow(msg, "ERR");
    PrefixWindow(msg, "BYE");
    PrefixWindow(msg, "REPLY");
  }

  /** Upper-casing a line does not change its type. */
  lemma {:induction false} ClassifierIgnoresCase(msg: string)
    ensures GetServerMsgType(Upper(msg)) == GetServerMsgType(msg)
  {
    var u := Upper(msg);
    forall word: string | |word| <= |msg|
      ensures Upper(u[..|word|]) == Upper(msg[..|word|])
    {
      UpperPrefix(msg, |word|);
      UpperPrefix(u, |word|);
      UpperIdempotent(msg);
    }
    ClassifierByPrefix(msg);
    ClassifierByPrefix(u);
  }

  /** The lines the client builds for MSG, ERR and BYE are recognised as such. */
  lemma BuiltLinesClassify(displayName: string, content: string)
    ensures GetServerMsgType(MsgLine(displayName, content)) == Msg
    ensures GetServerMsgType(ErrLine(displayName, content)) == Err
    ensures GetServerMsgType(ByeLine(displayName)) == Bye
  {
    var m, e, b := MsgLine(displayName, content), ErrLine(displayName, content), ByeLine(displayName);
    assert m[..3] == "MSG" && Upper("MSG") == "MSG";
    assert e[..3] == "ERR" && Upper("ERR") == "ERR";
    assert b[..3] == "BYE" && Upper("BYE") == "BYE";
    assert Upper("ERR") != "MSG" && Upper("BYE") != "MSG" && Upper("BYE") != "ERR";
    ClassifierByPrefix(m);
    ClassifierByPrefix(e);
    ClassifierByPrefix(b);
  }

  /** A REPLY line as read: whether its status is positive, and its content. */
  datatype ReplyLine = ReplyLine(positive: bool, content: string)

  const POSITIVE_REPLY_HEAD := "REPLY OK IS "
  const NEGATIVE_REPLY_HEAD := "REPLY NOK IS "

  /** The REPLY line with the given status and content, in upper case. */
  function ReplyText(positive: bool, content: string): string {
    (if positive then POSITIVE_REPLY_HEAD else NEGATIVE_REPLY_HEAD) + content + END_OF_MESSAGE
  }

  /** Reads `REPLY (OK|NOK) IS content CR LF` with the keywords in any case:
      the status is positive exactly when it is OK. The content is what lies
      between the head and the terminator; its syntax is checked elsewhere. */
  function ParseReply(line: string): (r: Option<ReplyLine>)
  {
    if |line| < |POSITIVE_REPLY_HEAD| + BYTES_IN_END_OF_MESSAGE
       || line[|line| - BYTES_IN_END_OF_MESSAGE..] != END_OF_MESSAGE then None
    else if HasPrefixIgnoringCase(line, POSITIVE_REPLY_HEAD) then
      Some(ReplyLine(true, line[|POSITIVE_REPLY_HEAD|..|line| - BYTES_IN_END_OF_MESSAGE]))
    else if |line| >= |NEGATIVE_REPLY_HEAD| + BYTES_IN_END_OF_MESSAGE && HasPrefixIgnoringCase(line, NEGATIVE_REPLY_HEAD) then
      Some(ReplyLine(false, line[|NEGATIVE_REPLY_HEAD|..|line| - BYTES_IN_END_OF_MESSAGE]))
    else None
  }

  /** A REPLY line is read back as the status and content it was written with. */
  lemma {:induction false} ReplyRoundTrip(positive: bool, content: string)
    ensures ParseReply(ReplyText(positive, content)) == Some(ReplyLine(positive, content))
  {
    var line := ReplyText(positive, content);
    var head := if positive then POSITIVE_REPLY_HEAD else NEGATIVE_REPLY_HEAD;
    assert line[..|head|] == head;
    assert Upper(head) == head;
    assert line[|line| - BYTES_IN_END_OF_MESSAGE..] == END_OF_MESSAGE;
    assert line[|head|..|line| - BYTES_IN_END_OF_MESSAGE] == content;
    if !positive {
      assert line[..|POSITIVE_REPLY_HEAD|][6] == 'N';
    }
  }

  /** Folding distributes over concatenation. */
  lemma UpperAppend(a: string, b: string)
    ensures Upper(a + b) == Upper(a) + Upper(b)
  {
  }

  /** A line that starts with either REPLY head, in any case, is a REPLY. */
  lemma {:induction false} ReplyHeadClassifies(line: string, head: string)
    requires head == POSITIVE_REPLY_HEAD || head == NEGATIVE_REPLY_HEAD
    requires HasPrefixIgnoringCase(line, head)
    ensures GetServerMsgType(line) == Reply
  {
    var h := line[..|head|];
    assert Upper(line[..5]) == "REPLY" by {
      assert h[..5] == line[..5];
      UpperPrefix(h, 5);
    }
    assert Upper(line[..3]) == "REP" by {
      assert h[..3] == line[..3];
      UpperPrefix(h, 3);
    }
    ClassifierByPrefix(line);
  }

  /** What reading a line as a REPLY found: one of the two heads, in any
      case, then the content, then the terminator. */
  lemma ParseReplyShape(line: string)
    requires ParseReply(line).Some?
    ensures var r := ParseReply(line).value;
      var head := if r.positive then POSITIVE_REPLY_HEAD else NEGATIVE_REPLY_HEAD;
      && HasPrefixIgnoringCase(line, head)
      && line == line[..|head|] + (r.content + END_OF_MESSAGE)
  {
    var r := ParseReply(line).value;
    var head := if r.positive then POSITIVE_REPLY_HEAD else NEGATIVE_REPLY_HEAD;
    Split3(line, |head|, |line| - BYTES_IN_END_OF_MESSAGE);
    AppendAssoc(line[..|head|], r.content, END_OF_MESSAGE);
  }

  /** Every line read as a REPLY is, up to letter case, the REPLY text of
      what was read, and is classified as a REPLY. */
  lemma {:induction false} ParsedReplyIsReplyText(line: string)
    requires ParseReply(line).Some?
    ensures var r := ParseReply(line).value;
      Upper(line) == Upper(ReplyText(r.positive, r.content))
    ensures GetServerMsgType(line) == Reply
  {
    var r := ParseReply(line).value;
    var head := if r.positive then POSITIVE_REPLY_HEAD else NEGATIVE_REPLY_HEAD;
    var tail := r.content + END_OF_MESSAGE;
    ParseReplyShape(line);
    assert Upper(line) == head + Upper(tail) by {
      UpperAppend(line[..|head|], tail);
    }
    assert Upper(ReplyText(r.positive, r.content)) == head + Upper(tail) by {
      AppendAssoc(head, r.content, END_OF_MESSAGE);
      UpperAppend(head, tail);
      assert Upper(head) == head;
    }
    ReplyHeadClassifies(line, head);
  }
}
