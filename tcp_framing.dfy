/**
 * Framing of the TCP byte stream: the client appends what it receives to a
 * buffer and repeatedly cuts off the prefix that ends at the first CR LF.
 * This module states what that cutting produces, independently of how the
 * stream was split into received chunks.
 */
module TcpFraming {
  import opened Protocol
  import opened TcpCodec
  import opened Seqs

  /** A terminator starts at index i of s. */
  predicate CrlfAt(s: string, i: int) {
    0 <= i && i + 1 < |s| && s[i] == '\r' && s[i + 1] == '\n'
  }

  /** s holds no terminator. */
  predicate NoCrlf(s: string) {
    forall i :: 0 <= i < |s| - 1 ==> !CrlfAt(s, i)
  }

  /** The index of the first terminator in s, if there is one. */
  function FindCrlf(s: string): (r: Option<nat>)
    ensures r.Some? ==> CrlfAt(s, r.value) && forall j :: 0 <= j < r.value ==> !CrlfAt(s, j)
    ensures r.None? ==> NoCrlf(s)
  {
    FindCrlfFrom(s, 0)
  }

  /** The index of the first terminator in s at or after i. */
  function FindCrlfFrom(s: string, i: nat): (r: Option<nat>)
    ensures r.Some? ==> CrlfAt(s, r.value) && forall j :: i <= j < r.value ==> !CrlfAt(s, j)
    ensures r.None? ==> forall j :: i <= j < |s| - 1 ==> !CrlfAt(s, j)
    decreases |s| - i
  {
    if i + 1 >= |s| then None
    else if s[i] == '\r' && s[i + 1] == '\n' then Some(i)
    else FindCrlfFrom(s, i + 1)
  }

  /** The first terminator is found wherever it lies. */
  lemma FindCrlfIsFirst(s: string, k: nat)
    requires CrlfAt(s, k) && forall j :: 0 <= j < k ==> !CrlfAt(s, j)
    ensures FindCrlf(s) == Some(k)
  {
  }

  /** A complete message: it ends with its first terminator. */
  predicate IsFrame(m: string) {
    |m| >= BYTES_IN_END_OF_MESSAGE && FindCrlf(m) == Some(|m| - BYTES_IN_END_OF_MESSAGE)
  }

  /** The messages cut off a buffer, in order, and what is left of it. */
  datatype Split = Split(messages: seq<string>, rest: string)

  function Concat(ms: seq<string>): string {
    if ms == [] then [] else ms[0] + Concat(ms[1..])
  }

  lemma {:induction false} ConcatAppend(a: seq<string>, b: seq<string>)
    ensures Concat(a + b) == Concat(a) + Concat(b)
  {
    if a == [] {
      assert a + b == b;
    } else {
      assert (a + b)[0] == a[0];
      assert (a + b)[1..] == a[1..] + b;
      ConcatAppend(a[1..], b);
    }
  }

  /** The prefix up to and including the first terminator is a message. */
  lemma FirstMessageIsFrame(s: string, k: nat)
    requires FindCrlf(s) == Some(k)
    ensures IsFrame(s[..k + 2])
  {
    var m := s[..k + 2];
    assert forall j :: 0 <= j < k ==> (CrlfAt(m, j) <==> CrlfAt(s, j));
    FindCrlfIsFirst(m, k);
  }

  /** Cutting every complete message off s, first terminator first. */
  function Frames(s: string): Split
    decreases |s|
  {
    match FindCrlf(s)
    case None => Split([], s)
    case Some(k) =>
      var t := Frames(s[k + 2..]);
      Split([s[..k + 2]] + t.messages, t.rest)
  }

  lemma {:induction false} FramesConcat(s: string)
    ensures Concat(Frames(s).messages) + Frames(s).rest == s
    decreases |s|
  {
    match FindCrlf(s)
    case None =>
    case Some(k) =>
      var m, tail := s[..k + 2], s[k + 2..];
      var t := Frames(tail);
      var c := Concat(t.messages);
      assert Frames(s) == Split([m] + t.messages, t.rest);
      assert Concat([m] + t.messages) == m + c by {
        ConcatCons(m, t.messages);
      }
      assert c + t.rest == tail by {
        FramesConcat(tail);
      }
      assert m + c + t.rest == s by {
        AppendAssoc(m, c, t.rest);
        TakeDrop(s, k + 2);
      }
  }
  lemma ConcatCons(m: string, ms: seq<string>)
    ensures Concat([m] + ms) == m + Concat(ms)
  {
    assert ([m] + ms)[0] == m && ([m] + ms)[1..] == ms;
  }
  lemma {:induction false} FramesRest(s: string)
    ensures NoCrlf(Frames(s).rest)
    decreases |s|
  {
    match FindCrlf(s)
    case None =>
    case Some(k) =>
      FramesRest(s[k + 2..]);
  }
  lemma {:induction false} FramesEach(s: string)
    ensures forall i :: 0 <= i < |Frames(s).messages| ==> IsFrame(Frames(s).messages[i])
    decreases |s|
  {
    match FindCrlf(s)
    case None =>
    case Some(k) =>
      var t := Frames(s[k + 2..]);
      FramesEach(s[k + 2..]);
      FirstMessageIsFrame(s, k);
      var ms := [s[..k + 2]] + t.messages;
      assert forall i :: 1 <= i < |ms| ==> ms[i] == t.messages[i - 1];
  }
  /** One turn of the cutting: the first message, then the cuts of what follows it. */
  lemma FramesStep(s: string, k: nat)
    requires FindCrlf(s) == Some(k)
    ensures Frames(s) == Split([s[..k + 2]] + Frames(s[k + 2..]).messages, Frames(s[k + 2..]).rest)
  {
  }

  /** Cutting the first message off a buffer whose framing continues a
      stream moves that message to the part of the stream already cut. */
  lemma CutStep(stream: string, cut: seq<string>, b: string, k: nat)
    requires FindCrlf(b) == Some(k)
    requires Frames(stream) == Split(cut + Frames(b).messages, Frames(b).rest)
    ensures IsFrame(b[..k + 2]) && b == b[..k + 2] + b[k + 2..]
    ensures Frames(stream) == Split((cut + [b[..k + 2]]) + Frames(b[k + 2..]).messages, Frames(b[k + 2..]).rest)
  {
    FirstMessageIsFrame(b, k);
    FramesStep(b, k);
    TakeDrop(b, k + 2);
    AppendAssoc(cut, [b[..k + 2]], Frames(b[k + 2..]).messages);
  }

  /** A buffer without terminator yields no message. */
  lemma FramesOfPartial(s: string)
    requires NoCrlf(s)
    ensures Frames(s) == Split([], s)
  {
  }

  /** The messages, concatenated in order and followed by the rest, give s
      back; each message ends with its first terminator; the rest holds no
      terminator. */
  lemma FramesSound(s: string)
    ensures var r := Frames(s);
      && Concat(r.messages) + r.rest == s
      && NoCrlf(r.rest)
      && forall i :: 0 <= i < |r.messages| ==> IsFrame(r.messages[i])
  {
    FramesConcat(s);
    FramesRest(s);
    FramesEach(s);
  }

  /** A complete message followed by more bytes is cut off first. */
  lemma {:induction false} FramesOfFrameThen(m: string, s: string)
    requires IsFrame(m)
    ensures Frames(m + s) == Split([m] + Frames(s).messages, Frames(s).rest)
  {
    var k := |m| - 2;
    assert forall j :: 0 <= j <= k ==> (CrlfAt(m + s, j) <==> CrlfAt(m, j));
    FindCrlfIsFirst(m + s, k);
    assert (m + s)[..k + 2] == m;
    assert (m + s)[k + 2..] == s;
  }

  /** Appending bytes never changes the messages already complete: they
      come first, and the rest is framed together with the new bytes. */
  lemma {:induction false} FramesAppend(s: string, c: string)
    ensures var f := Frames(s); var g := Frames(f.rest + c);
      Frames(s + c) == Split(f.messages + g.messages, g.rest)
    decreases |s|
  {
    var f := Frames(s);
    var g := Frames(f.rest + c);
    match FindCrlf(s)
    case None =>
      assert f == Split([], s);
      AppendEmpty(g.messages);
    case Some(k) =>
      var m, tail := s[..k + 2], s[k + 2..];
      var t := Frames(tail);
      assert f == Split([m] + t.messages, t.rest);
      assert s + c == m + (tail + c) by {
        TakeDrop(s, k + 2);
        AppendAssoc(m, tail, c);
      }
      assert Frames(s + c) == Split([m] + Frames(tail + c).messages, Frames(tail + c).rest) by {
        FirstMessageIsFrame(s, k);
        FramesOfFrameThen(m, tail + c);
      }
      assert Frames(tail + c) == Split(t.messages + g.messages, g.rest) by {
        FramesAppend(tail, c);
      }
      AppendAssoc([m], t.messages, g.messages);
  }

  /** Delivering chunks one after another to a buffer: each chunk is
      appended and every complete message is cut off before the next. */
  function Deliver(buffer: string, chunks: seq<string>): Split
    decreases |chunks|
  {
    if chunks == [] then Split([], buffer)
    else
      var f := Frames(buffer + chunks[0]);
      var d := Deliver(f.rest, chunks[1..]);
      Split(f.messages + d.messages, d.rest)
  }

  /** However the stream is chunked, the messages cut off are those of the
      whole stream, and so is what remains buffered. */
  lemma {:induction false} DeliverIsFrames(buffer: string, chunks: seq<string>)
    requires NoCrlf(buffer)
    ensures Deliver(buffer, chunks) == Frames(buffer + Concat(chunks))
    decreases |chunks|
  {
    if chunks == [] {
      FramesOfPartial(buffer);
      AppendEmpty(buffer);
    } else {
      var f := Frames(buffer + chunks[0]);
      FramesSound(buffer + chunks[0]);
      DeliverIsFrames(f.rest, chunks[1..]);
      FramesAppend(buffer + chunks[0], Concat(chunks[1..]));
      assert buffer + Concat(chunks) == buffer + chunks[0] + Concat(chunks[1..]);
    }
  }

  /** Two chunkings of the same stream deliver the same messages. */
  lemma ChunkingIrrelevant(a: seq<string>, b: seq<string>)
    requires Concat(a) == Concat(b)
    ensures Deliver([], a) == Deliver([], b)
  {
    DeliverIsFrames([], a);
    DeliverIsFrames([], b);
  }

  /** A buffer with no terminator that is already MAX_MSG_SIZE long can only
      complete into a message longer than MAX_MSG_SIZE. */
  lemma LongPartialOnlyGrowsTooLong(b: string, c: string)
    requires NoCrlf(b) && |b| >= MAX_MSG_SIZE
    requires FindCrlf(b + c).Some?
    ensures FindCrlf(b + c).value + BYTES_IN_END_OF_MESSAGE > MAX_MSG_SIZE
  {
    assert forall j :: 0 <= j < |b| - 1 ==> (CrlfAt(b + c, j) <==> CrlfAt(b, j));
  }

  /** The type of the buffer that starts with a complete message is the
      type of that message. */
  lemma {:induction false} TypeOfBufferHead(m: string, rest: string)
    requires IsFrame(m)
    ensures GetServerMsgType(m + rest) == GetServerMsgType(m)
  {
    assert m[|m| - 2] == '\r';
    PrefixOfFrameThen(m, rest, "MSG");
    PrefixOfFrameThen(m, rest, "ERR");
    PrefixOfFrameThen(m, rest, "BYE");
    PrefixOfFrameThen(m, rest, "REPLY");
    ClassifierByPrefix(m);
    ClassifierByPrefix(m + rest);
  }

  /** A word without CR starts a complete message followed by more bytes
      exactly when it starts the message alone. */
  lemma PrefixOfFrameThen(m: string, rest: string, word: string)
    requires IsFrame(m) && forall i :: 0 <= i < |word| ==> word[i] != '\r'
    ensures HasPrefixIgnoringCase(m + rest, word) <==> HasPrefixIgnoringCase(m, word)
  {
    if |word| <= |m| {
      assert (m + rest)[..|word|] == m[..|word|];
    } else if |word| <= |m + rest| {
      var i := |m| - 2;
      assert (m + rest)[i] == '\r';
      assert Upper((m + rest)[..|word|])[i] == '\r';
    }
  }

  /** A line with no CR in it, followed by the terminator, is a message. */
  lemma LineIsFrame(body: string)
    requires forall i :: 0 <= i < |body| ==> body[i] != '\r'
    ensures IsFrame(body + END_OF_MESSAGE)
  {
    FindCrlfIsFirst(body + END_OF_MESSAGE, |body|);
  }

  /** Complete messages sent back to back are cut off as they were sent. */
  lemma {:induction false} FramesOfMessages(ms: seq<string>)
    requires forall i :: 0 <= i < |ms| ==> IsFrame(ms[i])
    ensures Frames(Concat(ms)) == Split(ms, [])
    decreases |ms|
  {
    if ms == [] {
      FramesOfPartial([]);
    } else {
      FramesOfMessages(ms[1..]);
      FramesOfFrameThen(ms[0], Concat(ms[1..]));
      assert [ms[0]] + ms[1..] == ms;
    }
  }
}
