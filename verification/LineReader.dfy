/** The two buffered line readers, `readline` of UNP and of ETCP, over a stream with any
    chunking and any interrupts: each refines reading the stream byte by byte. */
module LineReader {
  import opened Bytes
  import opened Records

  const NEWLINE: byte := 10

  /** The first line of `s`, newline included, cut to at most `limit` bytes. */
  function Line(s: seq<byte>, limit: nat): (l: seq<byte>)
    ensures |l| <= limit && l <= s
  {
    if s == [] || limit == 0 then []
    else if s[0] == NEWLINE then [NEWLINE]
    else [s[0]] + Line(s[1..], limit - 1)
  }

  predicate Complete(l: seq<byte>) {
    l != [] && l[|l| - 1] == NEWLINE
  }

  /** What makes it the line: no newline but its last byte, and if it has none, either the
      limit or the end of the stream was reached. */
  lemma {:induction false} LineIsLine(s: seq<byte>, limit: nat)
    ensures var l := Line(s, limit);
            (forall i :: 0 <= i < |l| - 1 ==> l[i] != NEWLINE) &&
            (!Complete(l) ==> |l| == limit || l == s)
  {
    if s == [] || limit == 0 || s[0] == NEWLINE {
    } else {
      LineIsLine(s[1..], limit - 1);
    }
  }

  /** Having taken `front`, which holds no newline, the rest of the line comes from the rest. */
  lemma {:induction false} LineFrom(front: seq<byte>, rest: seq<byte>, limit: nat)
    requires |front| <= limit && NEWLINE !in front
    ensures Line(front + rest, limit) == front + Line(rest, limit - |front|)
  {
    if front == [] {
      assert front + rest == rest;
    } else {
      var tail := front[1..];
      assert front[0] in front;
      assert front + rest == [front[0]] + (tail + rest);
      LineFrom(tail, rest, limit - 1);
      Associative([front[0]], tail, Line(rest, limit - |front|));
    }
  }

  // ---- UNP ----

  /** `read_cnt`, `read_ptr` and `read_buf`. */
  class UnpReader {
    const buf: array<byte>
    var cnt: nat
    var ptr: nat

    ghost predicate Valid()
      reads this
    {
      0 < buf.Length && ptr + cnt <= buf.Length
    }

    /** The bytes read from the stream but not yet handed out. */
    ghost function Pending(): seq<byte>
      requires Valid()
      reads this, buf
    {
      buf[ptr..ptr + cnt]
    }

    constructor (size: nat)
      requires 0 < size
      ensures Valid() && Pending() == [] && fresh(buf)
    {
      buf := new byte[size](_ => 0);
      cnt, ptr := 0, 0;
    }

    /** The read of `my_read`, repeated while it is interrupted. */
    method Refill(fd: Stream) returns (n: nat)
      requires Valid() && cnt == 0
      modifies this, buf, fd
      ensures Valid() && cnt == n && (0 < n ==> ptr == 0)
      ensures Pending() + fd.data == old(fd.data)
      ensures n == 0 <==> old(fd.data) == []
    {
      var rc := -1;
      while rc < 0
        invariant Valid() && cnt == 0 && rc <= |old(fd.data)| && rc <= buf.Length
        invariant rc < 0 ==> fd.data == old(fd.data)
        invariant rc == 0 ==> fd.data == old(fd.data) == []
        invariant 0 < rc ==> buf[..rc] + fd.data == old(fd.data)
        decreases rc < 0, |fd.script|
      {
        rc := fd.Recv(buf, 0, buf.Length);
      }
      n := rc;
      cnt := n;
      if 0 < n {
        ptr := 0;
      }
    }

    /** `my_read`: 1 with a byte, or 0 at the end of the stream. */
    method MyRead(fd: Stream) returns (rc: int, c: byte)
      requires Valid()
      modifies this, buf, fd
      ensures Valid()
      ensures var ahead := old(Pending() + fd.data);
              if ahead == [] then rc == 0 && Pending() + fd.data == []
              else rc == 1 && ahead == [c] + (Pending() + fd.data)
    {
      c := 0;
      if cnt == 0 {
        assert Pending() + fd.data == fd.data;
        var n := Refill(fd);
        if n == 0 {
          return 0, c;
        }
      }
      ghost var front := Pending();
      cnt := cnt - 1;
      c := buf[ptr];
      ptr := ptr + 1;
      rc := 1;
      assert front == [c] + Pending();
      Associative([c], Pending(), fd.data);
    }

    /** `readline`. It takes the line cut to maxlen - 1 bytes off the stream and returns its
        length, except that a line cut short makes it return one more. */
    method Readline(fd: Stream, maxlen: nat) returns (n: int, line: seq<byte>)
      requires Valid()
      modifies this, buf, fd
      ensures Valid()
      ensures var ahead := old(Pending() + fd.data);
              var limit := if maxlen == 0 then 0 else maxlen - 1;
              line == Line(ahead, limit) && ahead == line + (Pending() + fd.data) &&
              n == if Complete(line) || (|line| < limit && line == ahead) then |line| else limit + 1
    {
      ghost var ahead := Pending() + fd.data;
      ghost var limit := if maxlen == 0 then 0 else maxlen - 1;
      line := [];
      n := 1;
      while n < maxlen
        invariant Valid() && n == |line| + 1 && |line| <= limit
        invariant NEWLINE !in line && ahead == line + (Pending() + fd.data)
        decreases maxlen - n
      {
        ghost var rest := Pending() + fd.data;
        LineFrom(line, rest, limit);
        var rc, c := MyRead(fd);
        if rc == 0 {
          return n - 1, line;
        }
        assert line + rest == (line + [c]) + (Pending() + fd.data);
        line := line + [c];
        if c == NEWLINE {
          return n, line;
        }
        n := n + 1;
      }
      LineFrom(line, Pending() + fd.data, limit);
    }

    /** `readlinebuf`: what is buffered is what the next lines begin with. */
    method ReadlineBuf(fd: Stream) returns (bytes: seq<byte>)
      requires Valid()
      ensures bytes == Pending() <= Pending() + fd.data
    {
      bytes := buf[ptr..ptr + cnt];
    }
  }

  // ---- ETCP ----

  /** The static `b`, `bp` and `cnt`; between bytes `cnt` is one more than what is left. */
  class EtcpReader {
    const b: array<byte>
    var cnt: int
    var bp: nat

    ghost predicate Valid()
      reads this
    {
      0 < b.Length && cnt <= b.Length && (0 < cnt ==> bp + cnt - 1 <= b.Length)
    }

    ghost function Pending(): seq<byte>
      requires Valid()
      reads this, b
    {
      if cnt <= 1 then [] else b[bp..bp + cnt - 1]
    }

    constructor (size: nat)
      requires 0 < size
      ensures Valid() && Pending() == [] && fresh(b)
    {
      b := new byte[size](_ => 0);
      cnt, bp := 0, 0;
    }

    /** The `recv` into the empty buffer. */
    method Refill(fd: Stream)
      requires 0 < b.Length
      modifies this, b, fd
      ensures -1 <= cnt <= b.Length
      ensures cnt == -1 ==> fd.data == old(fd.data) && |fd.script| < |old(fd.script)|
      ensures cnt == 0 ==> fd.data == old(fd.data) == []
      ensures 0 < cnt ==> bp == 0 && b[bp..bp + cnt] + fd.data == old(fd.data)
    {
      cnt := fd.Recv(b, 0, b.Length);
      if 0 < cnt {
        bp := 0;
        assert b[..cnt] == old(fd.data)[..cnt];
      }
    }

    /** The top of the loop's body: a byte, or 0 at the end of the stream, or -1 when the
        read was interrupted. */
    method NextByte(fd: Stream) returns (rc: int, c: byte)
      requires Valid()
      modifies this, b, fd
      ensures Valid() && -1 <= rc <= 1
      ensures rc == -1 ==> Pending() + fd.data == old(Pending() + fd.data) && |fd.script| < |old(fd.script)|
      ensures rc == 0 ==> Pending() + fd.data == old(Pending() + fd.data) == []
      ensures rc == 1 ==> [c] + (Pending() + fd.data) == old(Pending() + fd.data)
    {
      c := 0;
      cnt := cnt - 1;
      if cnt <= 0 {
        assert old(Pending() + fd.data) == fd.data;
        Refill(fd);
        if cnt <= 0 {
          assert Pending() + fd.data == fd.data;
          return cnt, c;
        }
      }
      ghost var front, d := b[bp..bp + cnt], fd.data;
      assert front + d == old(Pending() + fd.data);
      c := b[bp];
      bp := bp + 1;
      rc := 1;
      ghost var p := Pending();
      assert p == b[bp..bp + cnt - 1] && front == [c] + p;
      Associative([c], p, d);
    }

    /** `readline`: the length of a complete line that fits; 0 when the stream ends first,
        whatever was read of a line; -1 when the line does not fit. */
    method Readline(fd: Stream, len: nat) returns (n: int, line: seq<byte>)
      requires Valid() && 0 < len
      modifies this, b, fd
      ensures Valid()
      ensures var ahead := old(Pending() + fd.data);
              line == Line(ahead, len - 1) && ahead == line + (Pending() + fd.data) &&
              n == if Complete(line) then |line| else if |line| < len - 1 then 0 else -1
    {
      ghost var ahead := Pending() + fd.data;
      var left := len;
      line := [];
      while true
        invariant Valid() && left + |line| == len && 0 < left
        invariant NEWLINE !in line && ahead == line + (Pending() + fd.data)
        decreases left, |fd.script|
      {
        left := left - 1;
        if left == 0 {
          break;
        }
        ghost var rest := Pending() + fd.data;
        LineFrom(line, rest, len - 1);
        var rc, c := NextByte(fd);
        if rc < 0 {
          left := left + 1;
          continue;
        }
        if rc == 0 {
          return 0, line;
        }
        Associative(line, [c], Pending() + fd.data);
        line := line + [c];
        if c == NEWLINE {
          return |line|, line;
        }
      }
      LineFrom(line, Pending() + fd.data, len - 1);
      n := -1;
    }
  }

  // ---- any number of calls ----

  /** The lines successive calls take off a stream. */
  function Lines(s: seq<byte>, limit: nat, calls: nat): seq<seq<byte>> {
    if calls == 0 then [] else [Line(s, limit)] + Lines(s[|Line(s, limit)|..], limit, calls - 1)
  }

  /** Nothing is lost or repeated between calls: the lines joined are a prefix of the stream. */
  lemma {:induction false} LinesArePrefix(s: seq<byte>, limit: nat, calls: nat)
    ensures Concat(Lines(s, limit, calls)) <= s
    decreases calls
  {
    if 0 < calls {
      var l := Line(s, limit);
      LinesArePrefix(s[|l|..], limit, calls - 1);
      assert s == l + s[|l|..];
    }
  }

  lemma FirstOfLines(s: seq<byte>, line: seq<byte>, rest: seq<byte>, more: seq<seq<byte>>, tail: seq<byte>,
                     limit: nat, calls: nat)
    requires 0 < calls && line == Line(s, limit) && s == line + rest
    requires more == Lines(rest, limit, calls - 1) && Concat(more) + tail == rest
    ensures [line] + more == Lines(s, limit, calls) && Concat([line] + more) + tail == s
  {
    assert s[|line|..] == rest;
    assert ([line] + more)[0] == line && ([line] + more)[1..] == more;
    Associative(line, Concat(more), tail);
  }

  /** The reader of UNP, called any number of times, hands out the lines of the stream,
      whatever the chunks and whatever is buffered; what it has not handed out is still there. */
  method ReadLines(r: UnpReader, fd: Stream, maxlen: nat, calls: nat) returns (lines: seq<seq<byte>>)
    requires r.Valid() && 0 < maxlen
    modifies r, r.buf, fd
    ensures r.Valid() && lines == Lines(old(r.Pending() + fd.data), maxlen - 1, calls)
    ensures Concat(lines) + (r.Pending() + fd.data) == old(r.Pending() + fd.data)
    decreases calls
  {
    ghost var s := r.Pending() + fd.data;
    if calls == 0 {
      assert Concat<byte>([]) + s == s;
      return [];
    }
    var n, line := r.Readline(fd, maxlen);
    ghost var rest := r.Pending() + fd.data;
    var more := ReadLines(r, fd, maxlen, calls - 1);
    lines := [line] + more;
    FirstOfLines(s, line, rest, more, r.Pending() + fd.data, maxlen - 1, calls);
  }

  /** And so does the reader of ETCP. */
  method ReadLinesEtcp(r: EtcpReader, fd: Stream, len: nat, calls: nat) returns (lines: seq<seq<byte>>)
    requires r.Valid() && 0 < len
    modifies r, r.b, fd
    ensures r.Valid() && lines == Lines(old(r.Pending() + fd.data), len - 1, calls)
    ensures Concat(lines) + (r.Pending() + fd.data) == old(r.Pending() + fd.data)
    decreases calls
  {
    ghost var s := r.Pending() + fd.data;
    if calls == 0 {
      assert Concat<byte>([]) + s == s;
      return [];
    }
    var n, line := r.Readline(fd, len);
    ghost var rest := r.Pending() + fd.data;
    var more := ReadLinesEtcp(r, fd, len, calls - 1);
    lines := [line] + more;
    FirstOfLines(s, line, rest, more, r.Pending() + fd.data, len - 1, calls);
  }
}
