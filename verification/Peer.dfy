/** The peer program `extsys.c`: it reads records, ignores some of them, writes out the others
    and sends their cookies back, working in one buffer. */
module Peer {
  import opened Bytes
  import opened Records
  import opened WriterModel
  import opened Protocol

  /** What it sends for a stream, starting with the buffer contents `buf`, when `ignores`
      says which records it ignores; it stops where the list stops. */
  function Echoes(s: seq<byte>, buf: seq<byte>, ignores: seq<bool>): seq<byte>
    requires |buf| == PEERBUF
    decreases |ignores|
  {
    var (o, rest) := NextRecord(s, PEERBUF);
    if ignores == [] || o.Code() <= 0 then []
    else
      var read := o.bytes + buf[|o.bytes|..];
      if ignores[0] then Echoes(rest, read, ignores[1..])
      else
        var ack := AckFrame(read[..COOKIESZ]);
        ack + Echoes(rest, ack + read[1 + COOKIESZ..], ignores[1..])
  }

  /** What it writes out: of each record it does not ignore, what is behind the cookie. */
  function Output(s: seq<byte>, ignores: seq<bool>): seq<seq<byte>>
    decreases |ignores|
  {
    var (o, rest) := NextRecord(s, PEERBUF);
    if ignores == [] || o.Code() <= 0 then []
    else (if ignores[0] || |o.bytes| < COOKIESZ then [] else [o.bytes[COOKIESZ..]]) + Output(rest, ignores[1..])
  }

  /** The cookie moves up by a byte, and the ACK character goes before it. */
  method MakeAck(buf: array<byte>)
    requires buf.Length == PEERBUF
    modifies buf
    ensures buf[..] == AckFrame(old(buf[..COOKIESZ])) + old(buf[1 + COOKIESZ..])
    ensures buf[..1 + COOKIESZ] == AckFrame(old(buf[..COOKIESZ]))
  {
    Store(buf, 1, buf[..COOKIESZ]);
    buf[0] := ACK;
    assert buf[..] == AckFrame(old(buf[..COOKIESZ])) + old(buf[1 + COOKIESZ..]);
  }

  method Serve(fd: Stream, ignores: seq<bool>) returns (sent: seq<byte>, written: seq<seq<byte>>)
    modifies fd
    ensures sent == Echoes(old(fd.data), seq(PEERBUF, _ => 0), ignores)
    ensures written == Output(old(fd.data), ignores)
  {
    var buf := new byte[PEERBUF](_ => 0);
    sent, written := [], [];
    assert buf[..] == seq(PEERBUF, _ => 0);
    ghost var all, out := Echoes(fd.data, buf[..], ignores), Output(fd.data, ignores);
    assert ignores[0..] == ignores;
    for i := 0 to |ignores|
      invariant all == sent + Echoes(fd.data, buf[..], ignores[i..])
      invariant out == written + Output(fd.data, ignores[i..])
    {
      ghost var before := buf[..];
      OneWritten(written, fd.data, ignores[i..]);
      var rc := ReadVRec(fd, buf, PEERBUF);
      if rc <= 0 {
        return;
      }
      ghost var read := buf[..];
      if !ignores[i] {
        if COOKIESZ <= rc {
          written := written + [buf[COOKIESZ..rc]];
        }
        MakeAck(buf);
        Associative(sent, buf[..1 + COOKIESZ], Echoes(fd.data, buf[..], ignores[i + 1..]));
        sent := sent + buf[..1 + COOKIESZ];
      }
    }
  }

  lemma OneWritten(written: seq<seq<byte>>, s: seq<byte>, ignores: seq<bool>)
    requires ignores != []
    ensures var (o, rest) := NextRecord(s, PEERBUF);
            written + Output(s, ignores) ==
            if o.Code() <= 0 then written
            else if ignores[0] || |o.bytes| < COOKIESZ then written + Output(rest, ignores[1..])
            else (written + [o.bytes[COOKIESZ..]]) + Output(rest, ignores[1..])
  {
    var (o, rest) := NextRecord(s, PEERBUF);
    if o.Code() <= 0 {
      assert written + [] == written;
    } else if ignores[0] || |o.bytes| < COOKIESZ {
      assert [] + Output(rest, ignores[1..]) == Output(rest, ignores[1..]);
    } else {
      Associative(written, [o.bytes[COOKIESZ..]], Output(rest, ignores[1..]));
    }
  }

  function Kept(cookies: seq<nat>, ignores: seq<bool>): seq<nat>
    requires |cookies| <= |ignores|
  {
    if cookies == [] then []
    else (if ignores[0] then [] else [cookies[0]]) + Kept(cookies[1..], ignores[1..])
  }

  lemma {:induction false} KeptBelow(cookies: seq<nat>, ignores: seq<bool>, n: nat)
    requires |cookies| <= |ignores| && Below(cookies, n)
    ensures Below(Kept(cookies, ignores), n)
  {
    if cookies != [] {
      KeptBelow(cookies[1..], ignores[1..], n);
    }
  }

  /** What the buffer holds after one packet. */
  function After(c: nat, data: seq<byte>, buf: seq<byte>, ignore: bool): (left: seq<byte>)
    requires c < WORDS && |buf| == PEERBUF && COOKIESZ + |data| <= PEERBUF
    ensures |left| == PEERBUF
  {
    var read := Host(c) + data + buf[COOKIESZ + |data|..];
    if ignore then read else AckFrame(Host(c)) + read[1 + COOKIESZ..]
  }

  lemma EchoOne(c: nat, data: seq<byte>, rest: seq<byte>, buf: seq<byte>, ignores: seq<bool>)
    requires c < WORDS && |buf| == PEERBUF && COOKIESZ + |data| <= PEERBUF && ignores != []
    ensures Echoes(Packet(c, data) + rest, buf, ignores) ==
            (if ignores[0] then [] else AckFrame(Host(c))) +
            Echoes(rest, After(c, data, buf, ignores[0]), ignores[1..])
  {
    var bytes := Host(c) + data;
    NextAfterFrame(bytes, rest, PEERBUF);
    assert (bytes + buf[|bytes|..])[..COOKIESZ] == Host(c);
  }

  /** What makes the peer give up: no whole record, an empty one, or one over its buffer. */
  ghost predicate Ends(s: seq<byte>) {
    NoFrame(s) || exists bytes :: Framed(s, bytes) && (bytes == [] || PEERBUF < |bytes|)
  }

  lemma EndsIsEnd(s: seq<byte>)
    requires Ends(s)
    ensures NextRecord(s, PEERBUF).0.Code() <= 0
  {
    if bytes :| Framed(s, bytes) && (bytes == [] || PEERBUF < |bytes|) {
      assert s == Frame(bytes) + s[4 + |bytes|..];
      NextAfterFrame(bytes, s[4 + |bytes|..], PEERBUF);
    } else {
      var bytes := NextRecordIsExact(s, PEERBUF);
    }
  }

  /** Whatever is left in the buffer, the peer answers a stream of packets that fit it, up to
      where it gives up, with exactly the ACK frames of the packets it does not ignore, in
      order. */
  lemma {:induction false} PeerAcksWhatItKeeps(data: seq<seq<byte>>, cookies: seq<nat>, rest: seq<byte>, buf: seq<byte>, ignores: seq<bool>)
    requires |data| <= WORDS && Storable(data) && Below(cookies, |data|)
    requires forall i :: 0 <= i < |cookies| ==> COOKIESZ + |data[cookies[i]]| <= PEERBUF
    requires |cookies| <= |ignores| && |buf| == PEERBUF && Ends(rest)
    ensures Below(Kept(cookies, ignores), WORDS)
    ensures Echoes(Wire(data, cookies) + rest, buf, ignores) == AckWire(Kept(cookies, ignores))
    decreases |cookies|
  {
    KeptBelow(cookies, ignores, WORDS);
    if cookies == [] {
      assert Wire(data, cookies) + rest == rest;
      EndsIsEnd(rest);
    } else {
      var c, more := cookies[0], cookies[1..];
      Associative(Packet(c, data[c]), Wire(data, more), rest);
      EchoOne(c, data[c], Wire(data, more) + rest, buf, ignores);
      PeerAcksWhatItKeeps(data, more, rest, After(c, data[c], buf, ignores[0]), ignores[1..]);
      var kept := Kept(more, ignores[1..]);
      if ignores[0] {
        assert Kept(cookies, ignores) == kept;
      } else {
        assert Kept(cookies, ignores) == [c] + kept && ([c] + kept)[1..] == kept;
      }
    }
  }

  function Texts(data: seq<seq<byte>>, cookies: seq<nat>): (t: seq<seq<byte>>)
    requires Below(cookies, |data|)
    ensures |t| == |cookies| && forall i :: 0 <= i < |t| ==> t[i] == data[cookies[i]]
  {
    seq(|cookies|, i requires 0 <= i < |cookies| => data[cookies[i]])
  }

  /** And it writes out exactly the messages in those packets, in order. */
  lemma {:induction false} PeerWritesWhatItKeeps(data: seq<seq<byte>>, cookies: seq<nat>, rest: seq<byte>, ignores: seq<bool>)
    requires |data| <= WORDS && Storable(data) && Below(cookies, |data|)
    requires forall i :: 0 <= i < |cookies| ==> COOKIESZ + |data[cookies[i]]| <= PEERBUF
    requires |cookies| <= |ignores| && Ends(rest)
    ensures Below(Kept(cookies, ignores), |data|)
    ensures Output(Wire(data, cookies) + rest, ignores) == Texts(data, Kept(cookies, ignores))
    decreases |cookies|
  {
    KeptBelow(cookies, ignores, |data|);
    if cookies == [] {
      assert Wire(data, cookies) + rest == rest;
      EndsIsEnd(rest);
    } else {
      var c, more := cookies[0], cookies[1..];
      Associative(Packet(c, data[c]), Wire(data, more), rest);
      NextAfterFrame(Host(c) + data[c], Wire(data, more) + rest, PEERBUF);
      assert (Host(c) + data[c])[COOKIESZ..] == data[c];
      PeerWritesWhatItKeeps(data, more, rest, ignores[1..]);
      assert Texts(data, Kept(cookies, ignores)) ==
             (if ignores[0] then [] else [data[c]]) + Texts(data, Kept(more, ignores[1..]));
    }
  }
}
