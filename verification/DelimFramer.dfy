/** Newline-delimited framing (`DelimFramer.c`): messages longer than the reader's buffer come
    out in pieces, and the pieces make up exactly what was put in. */
module DelimFramer {
  import opened Bytes
  import opened Stdio

  const DELIMITER: byte := 10

  /** What `GetNextMsg` leaves in the buffer and how it returns: a piece that filled the
      buffer, a piece ended by the delimiter, the end of the stream, or the program's end
      because the stream stops inside a message. */
  datatype Piece = Full(bytes: seq<byte>) | Last(bytes: seq<byte>) | NoMore | Premature {
    function Code(): int {
      match this
      case Full(bytes) => -|bytes|
      case Last(bytes) => |bytes|
      case NoMore => -1
      case Premature => -1
    }
  }

  /** The bytes before the first delimiter, at most `limit` of them. */
  function Run(s: seq<byte>, limit: nat): (r: seq<byte>)
    ensures |r| <= limit && r <= s && DELIMITER !in r
    ensures |r| < limit && |r| < |s| ==> s[|r|] == DELIMITER
  {
    if s == [] || limit == 0 || s[0] == DELIMITER then [] else [s[0]] + Run(s[1..], limit - 1)
  }

  function NextPiece(s: seq<byte>, bufSize: nat): (Piece, seq<byte>)
    requires 0 < bufSize
  {
    var r := Run(s, bufSize);
    if |r| == bufSize then (Full(r), s[bufSize..])
    else if |r| < |s| then (Last(r), s[|r| + 1..])
    else (if r == [] then NoMore else Premature, [])
  }

  /** `GetNextMsg` */
  method GetNextMsg(input: File, buf: array<byte>, bufSize: nat) returns (p: Piece)
    requires 0 < bufSize <= buf.Length
    modifies input`unread, buf
    ensures (p, input.unread) == NextPiece(old(input.unread), bufSize)
    ensures p.Full? || p.Last? ==> buf[..|p.bytes|] == p.bytes
  {
    ghost var s := input.unread;
    var count := 0;
    while count < bufSize
      invariant count <= bufSize && count <= |s| && input.unread == s[count..]
      invariant buf[..count] == s[..count] && DELIMITER !in s[..count]
    {
      ghost var stops := count == |s| || s[count] == DELIMITER;
      if stops { RunIs(s, count, bufSize); }
      var next := input.GetC();
      if next == -1 {
        return if 0 < count then Premature else NoMore;
      }
      if next == DELIMITER {
        return Last(buf[..count]);
      }
      buf[count] := next;
      count := count + 1;
    }
    RunIs(s, count, bufSize);
    return Full(buf[..count]);
  }

  /** Nothing but the delimiter, the limit or the end stops the run. */
  lemma {:induction false} RunIs(s: seq<byte>, count: nat, limit: nat)
    requires count <= |s| && count <= limit && DELIMITER !in s[..count]
    requires count == limit || count == |s| || s[count] == DELIMITER
    ensures Run(s, limit) == s[..count]
  {
    if 0 < count {
      assert s[0] == s[..count][0];
      assert s[1..][..count - 1] == s[..count][1..];
      RunIs(s[1..], count - 1, limit - 1);
      assert s[..count] == [s[0]] + s[1..][..count - 1];
    }
  }

  /** `PutMsg`: refuses a message with a delimiter in it, else writes it and the delimiter. */
  method PutMsg(buf: seq<byte>, out: File) returns (rc: int)
    modifies out`written
    ensures rc == (if DELIMITER in buf then -1 else |buf|)
    ensures out.written == if DELIMITER in buf then old(out.written) else old(out.written) + buf + [DELIMITER]
  {
    for i := 0 to |buf|
      invariant DELIMITER !in buf[..i] && out.written == old(out.written)
    {
      if buf[i] == DELIMITER {
        return -1;
      }
      assert buf[..i + 1] == buf[..i] + [buf[i]];
    }
    assert buf[..|buf|] == buf;
    out.FWrite(buf);
    out.FWrite([DELIMITER]);
    return |buf|;
  }

  // ---- reading back ----

  /** Joining pieces up to the first that does not fill the buffer. */
  function Message(s: seq<byte>, bufSize: nat): (seq<byte>, Piece, seq<byte>)
    requires 0 < bufSize
    decreases |s|
  {
    var (p, rest) := NextPiece(s, bufSize);
    if p.Full? then
      var (more, end, left) := Message(rest, bufSize);
      (p.bytes + more, end, left)
    else (if p.Last? then p.bytes else [], p, rest)
  }

  /** Whatever its length, a message that was accepted comes back whole, and the stream is
      left at the next one: also for lengths that are multiples of the buffer's. */
  lemma {:induction false} MessageComesBack(msg: seq<byte>, rest: seq<byte>, bufSize: nat)
    requires 0 < bufSize && DELIMITER !in msg
    ensures var (m, end, left) := Message(msg + [DELIMITER] + rest, bufSize);
            m == msg && end.Last? && left == rest
    decreases |msg|
  {
    var s := msg + [DELIMITER] + rest;
    if |msg| < bufSize {
      assert s[..|msg|] == msg && s[|msg|] == DELIMITER;
      RunIs(s, |msg|, bufSize);
      assert s[|msg| + 1..] == rest;
    } else {
      assert s[..bufSize] == msg[..bufSize];
      RunIs(s, bufSize, bufSize);
      assert s[bufSize..] == msg[bufSize..] + [DELIMITER] + rest;
      MessageComesBack(msg[bufSize..], rest, bufSize);
      assert msg == msg[..bufSize] + msg[bufSize..];
    }
  }

  function Written(msgs: seq<seq<byte>>): seq<byte> {
    if msgs == [] then [] else msgs[0] + [DELIMITER] + Written(msgs[1..])
  }

  function AllMessages(s: seq<byte>, bufSize: nat): seq<seq<byte>>
    requires 0 < bufSize
    decreases |s|
  {
    var (m, end, left) := Message(s, bufSize);
    if end.Last? && |left| < |s| then [m] + AllMessages(left, bufSize) else []
  }

  /** A whole conversation comes back message by message, whether or not another message was
      broken off behind it. */
  lemma {:induction false} ConversationComesBack(msgs: seq<seq<byte>>, broken: seq<byte>, bufSize: nat)
    requires 0 < bufSize && (forall m :: m in msgs ==> DELIMITER !in m) && DELIMITER !in broken
    ensures AllMessages(Written(msgs) + broken, bufSize) == msgs
  {
    if msgs == [] {
      assert Written(msgs) + broken == broken;
      BrokenOff(broken, bufSize);
    } else {
      var rest := Written(msgs[1..]) + broken;
      assert Written(msgs) + broken == msgs[0] + [DELIMITER] + rest;
      MessageComesBack(msgs[0], rest, bufSize);
      ConversationComesBack(msgs[1..], broken, bufSize);
    }
  }

  /** What is left of `n` bytes after as many whole buffers as there are in them. */
  function LeftOver(n: nat, size: nat): (m: nat)
    requires 0 < size
    ensures m < size && m <= n
  {
    if n < size then n else LeftOver(n - size, size)
  }

  /** A message that the stream breaks off makes the program fail exactly if its length is no
      multiple of the buffer's. Otherwise it looks like messages read to their end. */
  lemma {:induction false} BrokenOff(msg: seq<byte>, bufSize: nat)
    requires 0 < bufSize && DELIMITER !in msg
    ensures Message(msg, bufSize).1 == if LeftOver(|msg|, bufSize) == 0 then NoMore else Premature
    ensures Message(msg, bufSize).0 == msg[..|msg| - LeftOver(|msg|, bufSize)] && Message(msg, bufSize).2 == []
    decreases |msg|
  {
    if |msg| < bufSize {
      assert msg[..|msg|] == msg;
      RunIs(msg, |msg|, bufSize);
    } else {
      RunIs(msg, bufSize, bufSize);
      var more := msg[bufSize..];
      BrokenOff(more, bufSize);
      assert msg[..|msg| - LeftOver(|msg|, bufSize)] == msg[..bufSize] + more[..|more| - LeftOver(|more|, bufSize)];
    }
  }

  /** Reading one message through the return codes alone, as a caller must; with a buffer of
      at least two bytes a full piece cannot be taken for the end of the stream. */
  method ReadMessage(input: File, bufSize: nat) returns (ok: bool, msg: seq<byte>)
    requires 2 <= bufSize
    modifies input`unread
    ensures ok <==> Message(old(input.unread), bufSize).1.Last?
    ensures ok ==> msg == Message(old(input.unread), bufSize).0 && input.unread == Message(old(input.unread), bufSize).2
  {
    var buf := new byte[bufSize];
    ghost var s := input.unread;
    msg := [];
    assert [] + Message(s, bufSize).0 == Message(s, bufSize).0;
    while true
      invariant Message(s, bufSize).0 == msg + Message(input.unread, bufSize).0
      invariant Message(s, bufSize).1 == Message(input.unread, bufSize).1
      invariant Message(s, bufSize).2 == Message(input.unread, bufSize).2
      decreases |input.unread|
    {
      ghost var before, t := msg, input.unread;
      var p := GetNextMsg(input, buf, bufSize);
      var n := p.Code();
      if n == -1 {
        return false, [];
      }
      msg := msg + buf[..if n < 0 then -n else n];
      if 0 <= n {
        return true, msg;
      }
      Associative(before, p.bytes, Message(input.unread, bufSize).0);
    }
  }

  /** With a buffer of one byte, and only then, a piece is reported like the end of the stream. */
  lemma OneByteBufferIsAmbiguous(s: seq<byte>, bufSize: nat)
    requires 0 < bufSize && NextPiece(s, bufSize).0.Full?
    ensures NextPiece(s, bufSize).0.Code() == NoMore.Code() <==> bufSize == 1
  {
  }
}
