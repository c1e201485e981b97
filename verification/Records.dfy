/** Length-prefixed records over a byte stream: the writer's frames, `readn`, `readvrec`
    and the reader loop of `vrs.c`, for every chunking and every pattern of interrupts. */
module Records {
  import opened Bytes

  /** A connected socket's inbound side. `data` is everything still to come before the peer
      closes. `script` is the environment: what successive `recv` calls run into, 0 for an
      interrupt and k for at most k bytes being there; after it, everything is there. */
  class Stream {
    var data: seq<byte>
    var script: seq<nat>

    constructor (data: seq<byte>, script: seq<nat>)
      ensures this.data == data && this.script == script
    {
      this.data, this.script := data, script;
    }

    /** `recv`: -1 for an interrupt, 0 at the end of the stream. */
    method Recv(buf: array<byte>, off: nat, cnt: nat) returns (rc: int)
      requires 0 < cnt && off + cnt <= buf.Length
      modifies this, buf
      ensures -1 <= rc <= cnt && rc <= |old(data)|
      ensures rc == -1 ==> data == old(data) && buf[..] == old(buf[..]) && |script| < |old(script)|
      ensures rc == 0 ==> data == old(data) == [] && buf[..] == old(buf[..])
      ensures 0 < rc ==> data == old(data)[rc..] && |script| <= |old(script)|
      ensures 0 < rc ==> buf[..] == old(buf[..off]) + old(data)[..rc] + old(buf[off + rc..])
    {
      var there := |data|;
      if script != [] {
        var k := script[0];
        script := script[1..];
        if k == 0 {
          return -1;
        }
        there := Min(k, there);
      }
      rc := Min(cnt, there);
      Store(buf, off, data[..rc]);
      data := data[rc..];
    }
  }

  /** `readn`: everything up to `len` bytes, short only at the end of the stream. */
  method ReadN(fd: Stream, buf: array<byte>, off: nat, len: nat) returns (n: nat)
    requires off + len <= buf.Length
    modifies fd, buf
    ensures n == Min(len, |old(fd.data)|)
    ensures fd.data == old(fd.data)[n..]
    ensures buf[..] == old(buf[..off]) + old(fd.data)[..n] + old(buf[off + n..])
  {
    var bp, cnt := off, len;
    ghost var before, s := buf[..], fd.data;
    while 0 < cnt
      invariant bp == off + len - cnt && 0 <= cnt <= len
      invariant len - cnt <= |s| && fd.data == s[len - cnt..]
      invariant buf[..] == before[..off] + s[..len - cnt] + before[bp..]
      decreases |fd.script| + cnt
    {
      ghost var got := len - cnt;
      var rc := fd.Recv(buf, bp, cnt);
      if rc < 0 {
        continue;
      }
      if rc == 0 {
        return len - cnt;
      }
      assert s[..got] + s[got..][..rc] == s[..got + rc];
      bp := bp + rc;
      cnt := cnt - rc;
    }
    return len;
  }

  /** What one `readvrec` call finds at the front of a stream. */
  datatype Outcome = Record(bytes: seq<byte>) | TooLong | Ended {
    /** The value it returns. */
    function Code(): int {
      match this
      case Record(bytes) => |bytes|
      case TooLong => -1
      case Ended => 0
    }
  }

  /** The record at the front of `s` as seen through a buffer of `len` bytes, and what is
      left of the stream; a cut-off record uses the stream up. */
  function NextRecord(s: seq<byte>, len: nat): (Outcome, seq<byte>) {
    if |s| < 4 then (Ended, [])
    else
      var n := FromNet(s[..4]);
      if |s| - 4 < n then (Ended, [])
      else (if len < n then TooLong else Record(s[4..4 + n]), s[4 + n..])
  }

  /** The rest of a record too long for the buffer is read and thrown away, a bufferful at
      a time; false when the stream ends first. */
  method Discard(fd: Stream, buf: array<byte>, len: nat, reclen: nat) returns (all: bool)
    requires 0 < len <= buf.Length
    modifies fd, buf
    ensures all <==> reclen <= |old(fd.data)|
    ensures fd.data == if all then old(fd.data)[reclen..] else []
  {
    ghost var s := fd.data;
    var left, chunk := reclen, Min(len, reclen);
    while 0 < left
      invariant 0 <= left <= reclen && chunk == Min(len, left)
      invariant reclen - left <= |s| && fd.data == s[reclen - left..]
    {
      var n := ReadN(fd, buf, 0, chunk);
      if n != chunk {
        return false;
      }
      left := left - chunk;
      if left < chunk {
        chunk := left;
      }
    }
    all := true;
  }

  /** `readvrec` */
  method ReadVRec(fd: Stream, buf: array<byte>, len: nat) returns (rc: int)
    requires 0 < len <= buf.Length
    modifies fd, buf
    ensures rc == NextRecord(old(fd.data), len).0.Code()
    ensures fd.data == NextRecord(old(fd.data), len).1
    ensures NextRecord(old(fd.data), len).0.Record? ==>
              buf[..] == NextRecord(old(fd.data), len).0.bytes + old(buf[rc..])
  {
    ghost var s := fd.data;
    var word := new byte[4];
    var n := ReadN(fd, word, 0, 4);
    if n != 4 {
      return 0;
    }
    assert word[..] == s[..4];
    var reclen := FromNet(word[..]);
    ghost var rest := s[4..];
    assert fd.data == rest;
    assert reclen <= |rest| ==> rest[reclen..] == s[4 + reclen..] && rest[..reclen] == s[4..4 + reclen];
    if len < reclen {
      var all := Discard(fd, buf, len, reclen);
      return if all then -1 else 0;
    }
    n := ReadN(fd, buf, 0, reclen);
    if n != reclen {
      return 0;
    }
    return n;
  }

  /** What the reader loop writes for a whole stream. */
  function Printed(s: seq<byte>, len: nat): seq<seq<byte>> {
    var (o, rest) := NextRecord(s, len);
    if o.Code() == 0 then []
    else if o.TooLong? then Printed(rest, len)
    else [o.bytes] + Printed(rest, len)
  }

  /** The reader: `vrs` with a buffer of `len` bytes. */
  method ReadRecords(fd: Stream, len: nat) returns (out: seq<seq<byte>>)
    requires 0 < len
    modifies fd
    ensures out == Printed(old(fd.data), len)
  {
    var buf := new byte[len];
    out := [];
    while true
      invariant out + Printed(fd.data, len) == Printed(old(fd.data), len)
      decreases |fd.data|
    {
      ghost var s := fd.data;
      var n := ReadVRec(fd, buf, len);
      if n == 0 {
        return;
      }
      if 0 < n {
        assert buf[..n] == NextRecord(s, len).0.bytes;
        out := out + [buf[..n]];
      }
    }
  }

  /** What the sender puts on the wire for one record. */
  function Frame(bytes: seq<byte>): (f: seq<byte>)
    requires |bytes| < WORDS
    ensures |f| == 4 + |bytes|
  {
    Net(|bytes|) + bytes
  }

  function Frames(recs: seq<seq<byte>>): seq<byte>
    requires forall r :: r in recs ==> |r| < WORDS
  {
    if recs == [] then [] else Frame(recs[0]) + Frames(recs[1..])
  }

  function NoLongerThan(recs: seq<seq<byte>>, len: nat): seq<seq<byte>> {
    if recs == [] then []
    else (if |recs[0]| <= len then [recs[0]] else []) + NoLongerThan(recs[1..], len)
  }

  /** Reading a frame yields its record or, if that is too long, nothing, and always ends
      exactly where the frame ends. */
  lemma NextAfterFrame(bytes: seq<byte>, rest: seq<byte>, len: nat)
    requires |bytes| < WORDS
    ensures NextRecord(Frame(bytes) + rest, len) ==
            (if |bytes| <= len then Record(bytes) else TooLong, rest)
  {
    var s := Frame(bytes) + rest;
    assert s[..4] == Net(|bytes|);
    NetRoundTrip(|bytes|);
    assert s[4..4 + |bytes|] == bytes && s[4 + |bytes|..] == rest;
  }

  /** No whole frame stands at the front. */
  ghost predicate NoFrame(s: seq<byte>) {
    forall bytes: seq<byte> :: !Framed(s, bytes)
  }

  predicate Framed(s: seq<byte>, bytes: seq<byte>) {
    |bytes| < WORDS && Frame(bytes) <= s
  }

  lemma FramedIsRead(s: seq<byte>, bytes: seq<byte>, len: nat)
    requires Framed(s, bytes)
    ensures !NextRecord(s, len).0.Ended?
  {
    assert s == Frame(bytes) + s[4 + |bytes|..];
    NextAfterFrame(bytes, s[4 + |bytes|..], len);
  }

  /** What stands at the front of a stream is the frame of the record read, or of one that is
      too long, and the rest is what follows it; the stream counts as ended, and is used up,
      exactly if there is no whole frame. */
  lemma NextRecordIsExact(s: seq<byte>, len: nat) returns (bytes: seq<byte>)
    ensures var (o, rest) := NextRecord(s, len);
            |bytes| < WORDS &&
            (o.Ended? <==> NoFrame(s)) && (o.Ended? ==> rest == []) &&
            (!o.Ended? ==> s == Frame(bytes) + rest && o == if |bytes| <= len then Record(bytes) else TooLong)
  {
    bytes := [];
    if NextRecord(s, len).0.Ended? {
      forall b: seq<byte> ensures !Framed(s, b) {
        if Framed(s, b) { FramedIsRead(s, b, len); }
      }
    } else {
      var n := FromNet(s[..4]);
      bytes := s[4..4 + n];
      FromNetRoundTrip(s[..4]);
      assert s == s[..4] + bytes + s[4 + n..];
      assert Framed(s, bytes);
    }
  }

  /** For every list of non-empty records, followed by a stump that holds no whole
      frame, the reader writes exactly the records that fit its buffer, in order. */
  lemma {:induction false} ReaderPrintsWhatFits(recs: seq<seq<byte>>, stump: seq<byte>, len: nat)
    requires forall r :: r in recs ==> 0 < |r| < WORDS
    requires NoFrame(stump)
    ensures Printed(Frames(recs) + stump, len) == NoLongerThan(recs, len)
  {
    if recs == [] {
      assert Frames(recs) + stump == stump;
      var bytes := NextRecordIsExact(stump, len);
    } else {
      var rest := Frames(recs[1..]) + stump;
      assert Frames(recs) + stump == Frame(recs[0]) + rest;
      NextAfterFrame(recs[0], rest, len);
      ReaderPrintsWhatFits(recs[1..], stump, len);
    }
  }

  /** A zero-length record stops the reader as the end of the stream does: whatever follows
      it is never written. */
  lemma {:induction false} EmptyRecordStopsReader(recs: seq<seq<byte>>, rest: seq<byte>, len: nat)
    requires forall r :: r in recs ==> 0 < |r| < WORDS
    ensures Printed(Frames(recs) + Frame([]) + rest, len) == NoLongerThan(recs, len)
  {
    if recs == [] {
      assert Frames(recs) + Frame([]) + rest == Frame([]) + rest;
      NextAfterFrame([], rest, len);
    } else {
      var more := Frames(recs[1..]) + Frame([]) + rest;
      assert Frames(recs) + Frame([]) + rest == Frame(recs[0]) + more;
      NextAfterFrame(recs[0], more, len);
      EmptyRecordStopsReader(recs[1..], rest, len);
    }
  }

  function BeforeEmpty(recs: seq<seq<byte>>): (b: seq<seq<byte>>)
    ensures forall r :: r in b ==> r in recs && r != []
  {
    if recs == [] || recs[0] == [] then [] else [recs[0]] + BeforeEmpty(recs[1..])
  }

  /** For every list of records: those that fit, up to the first empty one. */
  lemma {:induction false} ReaderStopsAtEmpty(recs: seq<seq<byte>>, stump: seq<byte>, len: nat)
    requires forall r :: r in recs ==> |r| < WORDS
    requires NoFrame(stump)
    ensures Printed(Frames(recs) + stump, len) == NoLongerThan(BeforeEmpty(recs), len)
  {
    if recs == [] {
      assert Frames(recs) + stump == stump;
      var bytes := NextRecordIsExact(stump, len);
    } else {
      var rest := Frames(recs[1..]) + stump;
      Associative(Frame(recs[0]), Frames(recs[1..]), stump);
      NextAfterFrame(recs[0], rest, len);
      ReaderStopsAtEmpty(recs[1..], stump, len);
      if recs[0] != [] {
        assert BeforeEmpty(recs)[1..] == BeforeEmpty(recs[1..]);
      }
    }
  }

  /** The records there is something to write of. */
  function Writable(recs: seq<seq<byte>>, len: nat): seq<seq<byte>> {
    if recs == [] then []
    else (if recs[0] != [] && |recs[0]| <= len then [recs[0]] else []) + Writable(recs[1..], len)
  }

  ghost predicate NoneAfterEmpty(recs: seq<seq<byte>>, len: nat) {
    forall i, j :: 0 <= i < j < |recs| && recs[i] == [] ==> recs[j] == [] || len < |recs[j]|
  }

  lemma {:induction false} NothingWritable(recs: seq<seq<byte>>, len: nat)
    ensures Writable(recs, len) == [] <==> forall j :: 0 <= j < |recs| ==> recs[j] == [] || len < |recs[j]|
  {
    if recs != [] {
      NothingWritable(recs[1..], len);
      assert forall j :: 1 <= j < |recs| ==> recs[j] == recs[1..][j - 1];
    }
  }

  lemma {:induction false} AllBeforeEmpty(recs: seq<seq<byte>>, len: nat)
    ensures NoLongerThan(BeforeEmpty(recs), len) == Writable(recs, len) <==> NoneAfterEmpty(recs, len)
  {
    if recs != [] {
      var rest := recs[1..];
      assert forall j :: 1 <= j < |recs| ==> recs[j] == rest[j - 1];
      if recs[0] == [] {
        NothingWritable(rest, len);
        assert NoneAfterEmpty(recs, len) <==> forall j :: 0 <= j < |rest| ==> rest[j] == [] || len < |rest[j]|;
      } else {
        AllBeforeEmpty(rest, len);
        assert NoneAfterEmpty(recs, len) <==> NoneAfterEmpty(rest, len);
        assert BeforeEmpty(recs)[1..] == BeforeEmpty(rest);
        SamePrefix(if |recs[0]| <= len then [recs[0]] else [], NoLongerThan(BeforeEmpty(rest), len), Writable(rest, len));
      }
    }
  }

  lemma SamePrefix<T>(a: seq<T>, b: seq<T>, c: seq<T>)
    ensures a + b == a + c <==> b == c
  {
    assert (a + b)[|a|..] == b && (a + c)[|a|..] == c;
  }

  /** The reader writes every record that fits and has something in it exactly if none of them
      comes after an empty record. An empty record itself is never written. */
  lemma EverythingIsPrinted(recs: seq<seq<byte>>, stump: seq<byte>, len: nat)
    requires forall r :: r in recs ==> |r| < WORDS
    requires NoFrame(stump)
    ensures Printed(Frames(recs) + stump, len) == Writable(recs, len) <==> NoneAfterEmpty(recs, len)
  {
    ReaderStopsAtEmpty(recs, stump, len);
    AllBeforeEmpty(recs, len);
  }
}
