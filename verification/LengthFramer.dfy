/** Framing by a two-byte length (`LengthFramer.c`). */
module LengthFramer {
  import opened Bytes
  import opened Stdio

  /** The room for the part of a message that did not fit (`BUFSIZE`). */
  const BUFSIZE := 512

  /** How `GetNextMsg` ends: a message, the first part of one that was too long, a stream that
      ends too early (`-1`), or more to throw away than the waste buffer holds, which `fread`
      writes behind it. */
  datatype Got = Msg(bytes: seq<byte>) | Cut(bytes: seq<byte>, indicated: int) | Short | Overrun {
    function Code(): int {
      match this
      case Msg(bytes) => |bytes|
      case Cut(_, indicated) => -indicated
      case Short => -1
      case Overrun => -1
    }
  }

  function Next(s: seq<byte>, bufSize: nat): (g: (Got, seq<byte>))
    ensures |g.1| <= |s| && (g.0.Msg? ==> |g.1| < |s|)
  {
    if |s| < 2 then (Short, [])
    else
      var n := Pair(s[0], s[1]);
      var fits := Min(n, bufSize);
      if |s| - 2 < fits then (Short, [])
      else if n == fits then (Msg(s[2..2 + n]), s[2 + n..])
      else if bufSize + BUFSIZE < Min(n, |s| - 2) then (Overrun, s[Min(2 + n, |s|)..])
      else (Cut(s[2..2 + fits], n), s[Min(2 + n, |s|)..])
  }

  /** `GetNextMsg` */
  method GetNextMsg(input: File, buf: array<byte>, bufSize: nat) returns (g: Got)
    requires bufSize <= buf.Length
    modifies input`unread, buf
    ensures g == Next(old(input.unread), bufSize).0
    ensures input.unread == Next(old(input.unread), bufSize).1
    ensures g.Msg? || g.Cut? ==> |g.bytes| <= bufSize && buf[..|g.bytes|] == g.bytes
  {
    ghost var s := input.unread;
    var size := input.FRead(2);
    if |size| != 2 {
      return Short;
    }
    assert size[0] == s[0] && size[1] == s[1] && input.unread == s[2..];
    var mSize := Pair(size[0], size[1]);
    var extra := 0;
    if bufSize < mSize {
      extra := mSize - bufSize;
      mSize := bufSize;
    }
    var b := input.FRead(mSize);
    forall i | 0 <= i < |b| {
      buf[i] := b[i];
    }
    if |b| != mSize {
      return Short;
    }
    assert s[2..2 + mSize] == b && s[2 + mSize..] == input.unread;
    assert buf[..mSize] == b;
    if extra == 0 {
      return Msg(b);
    }
    var waste := input.FRead(extra);
    assert s[2 + mSize + |waste|..] == input.unread;
    if BUFSIZE < |waste| {
      return Overrun;
    }
    return Cut(b, mSize + extra);
  }

  function Framed(msg: seq<byte>): seq<byte>
    requires |msg| < 0x1_0000
  {
    NetShort(|msg|) + msg
  }

  /** `PutMsg` */
  method PutMsg(buf: array<byte>, msgSize: nat, out: File) returns (rc: int)
    requires msgSize <= buf.Length
    modifies out`written
    ensures rc == if msgSize < 0x1_0000 then msgSize else -1
    ensures out.written == if rc == -1 then old(out.written) else old(out.written) + Framed(buf[..msgSize])
  {
    if 0xffff < msgSize {
      return -1;
    }
    out.FWrite(NetShort(msgSize));
    out.FWrite(buf[..msgSize]);
    Associative(old(out.written), NetShort(msgSize), buf[..msgSize]);
    return msgSize;
  }

  /** A message that the stream breaks off is noticed exactly if part of it is missing that
      would have fitted the buffer. Otherwise it is cut as if it were all there. */
  lemma BrokenOff(msg: seq<byte>, k: nat, bufSize: nat)
    requires |msg| < 0x1_0000 && k < 2 + |msg|
    ensures var (g, left) := Next(Framed(msg)[..k], bufSize);
            left == [] && (g.Short? <==> k < 2 + Min(|msg|, bufSize)) &&
            (g.Overrun? <==> bufSize + BUFSIZE < k - 2) &&
            (!g.Short? && !g.Overrun? ==> g == Cut(msg[..bufSize], |msg|))
  {
    var s := Framed(msg)[..k];
    if 2 <= k {
      assert s[0] == NetShort(|msg|)[0] && s[1] == NetShort(|msg|)[1];
      assert s[2..] == msg[..k - 2];
      assert bufSize <= k - 2 ==> s[2..2 + bufSize] == msg[..bufSize];
    }
  }

  /** What was put is what is got, whole if it fits and otherwise cut with its length told, and
      the stream is left at whatever follows it; that is so exactly up to the room for what
      does not fit. */
  lemma PutIsGot(msg: seq<byte>, rest: seq<byte>, bufSize: nat)
    requires |msg| < 0x1_0000
    ensures var (g, left) := Next(Framed(msg) + rest, bufSize);
            (g.Overrun? <==> bufSize + BUFSIZE < |msg|) &&
            (!g.Overrun? ==>
               left == rest && g.Code() == (if |msg| <= bufSize then |msg| else -|msg|) &&
               g == if |msg| <= bufSize then Msg(msg) else Cut(msg[..bufSize], |msg|))
  {
    var s := Framed(msg) + rest;
    assert s[2..] == msg + rest;
    assert s[2 + |msg|..] == rest;
    assert s[2..2 + Min(|msg|, bufSize)] == msg[..Min(|msg|, bufSize)];
  }
}
