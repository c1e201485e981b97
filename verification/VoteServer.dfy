/** The vote server (`VoteServerTCP.c`) behind the length framer and the binary codec, with its
    clients one after the other. */
module VoteServer {
  import opened Bytes
  import opened Options
  import opened Stdio
  import opened LengthFramer
  import opened VoteProtocol
  import opened VoteEncoding

  type Tally = t: seq<u64> | |t| == MAX_CANDIDATE + 1 witness seq(MAX_CANDIDATE + 1, i => 0)

  predicate InRange(candidate: int) {
    0 <= candidate <= MAX_CANDIDATE
  }

  /** One message: the tally after it and the reply. */
  function Handle(t: Tally, v: VoteInfo): (Tally, VoteInfo) {
    if v.isResponse then (t, v)
    else if !InRange(v.candidate) then (t, v.(isResponse := true))
    else
      var t' := if v.isInquiry then t else t[v.candidate := (t[v.candidate] + 1) % LONGS];
      (t', v.(isResponse := true, count := t'[v.candidate]))
  }

  /** The message the server takes next from its client, if it goes on at all: an empty message,
      one too long, or one it cannot parse ends the session. */
  function Take(s: seq<byte>): (r: (Option<VoteInfo>, seq<byte>))
    ensures r.0.Some? ==> |r.1| < |s|
  {
    var (g, rest) := Next(s, MAX_WIRE_SIZE);
    (if g.Msg? && g.bytes != [] && Genuine(g.bytes) then Some(Meaning(g.bytes, 0)) else None, rest)
  }

  /** A session, as a function of all the client sends: the tally after it and what is sent back. */
  function Talk(t: Tally, s: seq<byte>): (Tally, seq<byte>)
    decreases |s|
  {
    var (m, rest) := Take(s);
    if m.None? then (t, [])
    else
      var (t', reply) := Handle(t, m.value);
      var (end, more) := Talk(t', rest);
      (end, Framed(Message(reply)) + more)
  }

  function Serve(t: Tally, clients: seq<seq<byte>>): Tally
    decreases |clients|
  {
    if clients == [] then t else Serve(Talk(t, clients[0]).0, clients[1..])
  }

  /** What the `i`-th client is sent. */
  function Reply(t: Tally, clients: seq<seq<byte>>, i: nat): seq<byte>
    requires i < |clients|
  {
    Talk(Serve(t, clients[..i]), clients[i]).1
  }

  lemma {:induction false} ServeNext(t: Tally, clients: seq<seq<byte>>, i: nat)
    requires i < |clients|
    ensures Serve(t, clients[..i + 1]) == Talk(Serve(t, clients[..i]), clients[i]).0
    decreases i
  {
    if i == 0 {
      assert clients[..1][1..] == [] && clients[..0] == [];
    } else {
      var rest := clients[1..];
      assert clients[..i + 1][1..] == rest[..i] && clients[..i][1..] == rest[..i - 1];
      ServeNext(Talk(t, clients[0]).0, rest, i - 1);
    }
  }

  class Server {
    const counts: array<u64>

    ghost predicate Valid() {
      counts.Length == MAX_CANDIDATE + 1
    }

    ghost function Counts(): Tally
      requires Valid()
      reads counts
    {
      counts[..]
    }

    constructor ()
      ensures Valid() && fresh(counts)
      ensures Counts() == seq(MAX_CANDIDATE + 1, i => 0)
    {
      counts := new u64[MAX_CANDIDATE + 1](i => 0);
    }

    /** The part of the loop that answers a message it could decode. */
    method Count(v: VoteStruct)
      requires Valid()
      modifies v, counts
      ensures (Counts(), v.Info()) == Handle(old(Counts()), old(v.Info()))
    {
      if !v.isResponse {
        v.isResponse := true;
        if 0 <= v.candidate <= MAX_CANDIDATE {
          if !v.isInquiry {
            counts[v.candidate] := (counts[v.candidate] + 1) % LONGS;
          }
          v.count := counts[v.candidate];
        }
      }
    }

    /** The loop over one client's messages. */
    method Session(channel: File)
      requires Valid()
      modifies channel, counts
      ensures Counts() == Talk(old(Counts()), old(channel.unread)).0
      ensures channel.written == old(channel.written) + Talk(old(Counts()), old(channel.unread)).1
    {
      ghost var t, s := Counts(), channel.unread;
      var inBuf, outBuf := new byte[MAX_WIRE_SIZE], new byte[MAX_WIRE_SIZE];
      while true
        invariant fresh(inBuf) && fresh(outBuf)
        invariant Talk(t, s).0 == Talk(Counts(), channel.unread).0
        invariant channel.written + Talk(Counts(), channel.unread).1 == old(channel.written) + Talk(t, s).1
        decreases |channel.unread|
      {
        ghost var before, sent := channel.unread, channel.written;
        var g := GetNextMsg(channel, inBuf, MAX_WIRE_SIZE);
        var mSize := g.Code();
        if mSize <= 0 {
          return;
        }
        var v := new VoteStruct();
        var ok := Decode(inBuf, mSize, v);
        if !ok {
          return;
        }
        assert Take(before) == (Some(v.Info()), channel.unread);
        Count(v);
        ghost var reply := Framed(Message(v.Info()));
        var size := Encode(v.Info(), outBuf, MAX_WIRE_SIZE);
        assert outBuf[..size.value] == Message(v.Info());
        var rc := PutMsg(outBuf, size.value, channel);
        Associative(sent, reply, Talk(Counts(), channel.unread).1);
      }
    }

    /** The loop over clients. */
    method Run(clients: seq<File>)
      requires Valid()
      requires forall i, j :: 0 <= i < j < |clients| ==> clients[i] != clients[j]
      modifies counts, clients
      ensures Counts() == Serve(old(Counts()), old(Unread(clients)))
      ensures forall i :: 0 <= i < |clients| ==>
        clients[i].written == old(clients[i].written) + Reply(old(Counts()), old(Unread(clients)), i)
    {
      ghost var t, all := Counts(), Unread(clients);
      for i := 0 to |clients|
        invariant |all| == |clients| && forall k :: i <= k < |clients| ==> clients[k].unread == all[k]
        invariant Counts() == Serve(t, all[..i])
        invariant forall k :: i <= k < |clients| ==> clients[k].written == old(clients[k].written)
        invariant forall k :: 0 <= k < i ==> clients[k].written == old(clients[k].written) + Reply(t, all, k)
      {
        ServeNext(t, all, i);
        Session(clients[i]);
      }
      assert all[..|all|] == all;
    }
  }

  ghost function Unread(clients: seq<File>): seq<seq<byte>>
    reads clients
  {
    seq(|clients|, i requires 0 <= i < |clients| reads clients => clients[i].unread)
  }

  // ---- what the sessions add up to ----

  /** The messages the server takes from a stream; a client reads its replies the same way. */
  function Taken(s: seq<byte>): seq<VoteInfo>
    decreases |s|
  {
    var (m, rest) := Take(s);
    if m.None? then [] else [m.value] + Taken(rest)
  }

  /** The votes for a candidate: requests that are not inquiries. */
  function Votes(vs: seq<VoteInfo>, c: int): nat {
    if vs == [] then 0 else (if vs[0].Vote() && vs[0].candidate == c then 1 else 0) + Votes(vs[1..], c)
  }

  function After(t: Tally, vs: seq<VoteInfo>, c: int): u64
    requires InRange(c)
  {
    (t[c] + Votes(vs, c)) % LONGS
  }

  /** Every reply by its place in the history: a response comes back as it was; a request comes
      back as a response that tells the votes up to and including itself, or zero if there is
      no such candidate. */
  function Answers(t: Tally, vs: seq<VoteInfo>): seq<VoteInfo> {
    seq(|vs|, i requires 0 <= i < |vs| =>
      if vs[i].isResponse then vs[i]
      else VoteInfo(if InRange(vs[i].candidate) then After(t, vs[..i + 1], vs[i].candidate) else vs[i].count,
                    vs[i].candidate, vs[i].isInquiry, true))
  }

  lemma AfterStep(t: Tally, v: VoteInfo, vs: seq<VoteInfo>, c: int)
    requires InRange(c)
    ensures After(t, [v] + vs, c) == After(Handle(t, v).0, vs, c)
  {
    assert ([v] + vs)[1..] == vs;
  }

  lemma AnswersStep(t: Tally, v: VoteInfo, vs: seq<VoteInfo>)
    ensures Answers(t, [v] + vs) == [Handle(t, v).1] + Answers(Handle(t, v).0, vs)
  {
    var (t', reply) := Handle(t, v);
    var all := [v] + vs;
    forall i | 0 <= i < |all|
      ensures Answers(t, all)[i] == ([reply] + Answers(t', vs))[i]
    {
      var c := all[i].candidate;
      assert all[..i + 1] == [v] + vs[..i];
      if InRange(c) {
        AfterStep(t, v, vs[..i], c);
      }
    }
  }

  /** What the server works on: what `Decode` can yield. */
  predicate Sound(v: VoteInfo) {
    0 <= v.candidate < 0x1_0000 && (v.isResponse || v.count == 0)
  }

  lemma TakenIsSound(s: seq<byte>)
    ensures Take(s).0.Some? ==> Sound(Take(s).0.value)
  {
  }

  /** Of whatever is framed the server takes what is neither empty nor too long and decodes,
      and nothing else; the rest ends the session, as does a frame broken off. */
  lemma FrameIsTaken(b: seq<byte>, rest: seq<byte>)
    requires |b| < 0x1_0000
    ensures var (m, left) := Take(Framed(b) + rest);
            if 0 < |b| <= MAX_WIRE_SIZE && Genuine(b) then m == Some(Meaning(b, 0)) && left == rest else m == None
    ensures forall k :: 0 <= k < |Framed(b)| ==> Take(Framed(b)[..k]).0 == None
  {
    PutIsGot(b, rest, MAX_WIRE_SIZE);
    forall k | 0 <= k < |Framed(b)| ensures Take(Framed(b)[..k]).0 == None {
      BrokenOff(b, k, MAX_WIRE_SIZE);
    }
  }

  /** A message put on the wire is taken off it. */
  lemma SentIsTaken(v: VoteInfo, rest: seq<byte>)
    requires Sound(v)
    ensures Take(Framed(Message(v)) + rest) == (Some(v), rest)
  {
    MessageRoundTrip(v);
    PutIsGot(Message(v), rest, MAX_WIRE_SIZE);
  }

  /** The tally after a session is the tally before it and the votes taken in it. */
  lemma {:induction false} SessionCountsVotes(t: Tally, s: seq<byte>, c: int)
    requires InRange(c)
    ensures Talk(t, s).0[c] == After(t, Taken(s), c)
    decreases |s|
  {
    var (m, rest) := Take(s);
    if m.Some? {
      SessionCountsVotes(Handle(t, m.value).0, rest, c);
      AfterStep(t, m.value, Taken(rest), c);
    }
  }

  /** What a client reads back is, message for message, the answers to what it sent. */
  lemma {:induction false} RepliesTell(t: Tally, s: seq<byte>)
    ensures Taken(Talk(t, s).1) == Answers(t, Taken(s))
    decreases |s|
  {
    var (m, rest) := Take(s);
    if m.Some? {
      var (t', reply) := Handle(t, m.value);
      TakenIsSound(s);
      RepliesTell(t', rest);
      SentIsTaken(reply, Talk(t', rest).1);
      AnswersStep(t, m.value, Taken(rest));
    }
  }

  function Wire(vs: seq<VoteInfo>): seq<byte> {
    if vs == [] then [] else Framed(Message(vs[0])) + Wire(vs[1..])
  }

  lemma {:induction false} WireIsTaken(vs: seq<VoteInfo>)
    requires forall v :: v in vs ==> Sound(v)
    ensures Taken(Wire(vs)) == vs
  {
    if vs != [] {
      SentIsTaken(vs[0], Wire(vs[1..]));
      WireIsTaken(vs[1..]);
    }
  }

  /** End to end: whatever messages a client encodes and frames, it decodes their answers. */
  lemma ClientLearns(t: Tally, vs: seq<VoteInfo>)
    requires forall v :: v in vs ==> Sound(v)
    ensures Taken(Talk(t, Wire(vs)).1) == Answers(t, vs)
  {
    WireIsTaken(vs);
    RepliesTell(t, Wire(vs));
  }

  /** The server's own output, fed back into any server, is echoed byte for byte and counts
      for nothing. */
  lemma {:induction false} EchoesAreNotCounted(t: Tally, u: Tally, s: seq<byte>)
    ensures Talk(u, Talk(t, s).1) == (u, Talk(t, s).1)
    decreases |s|
  {
    var (m, rest) := Take(s);
    if m.Some? {
      var (t', reply) := Handle(t, m.value);
      TakenIsSound(s);
      SentIsTaken(reply, Talk(t', rest).1);
      EchoesAreNotCounted(t', u, rest);
    }
  }

  /** All that the server takes from its clients, one after the other. */
  function History(clients: seq<seq<byte>>): seq<VoteInfo> {
    if clients == [] then [] else Taken(clients[0]) + History(clients[1..])
  }

  lemma {:induction false} VotesAppend(a: seq<VoteInfo>, b: seq<VoteInfo>, c: int)
    ensures Votes(a + b, c) == Votes(a, c) + Votes(b, c)
  {
    if a == [] {
      assert a + b == b;
    } else {
      VotesAppend(a[1..], b, c);
      assert (a + b)[1..] == a[1..] + b;
    }
  }

  lemma Wraps(n: nat, a: nat, b: nat)
    ensures ((n + a) % LONGS + b) % LONGS == (n + (a + b)) % LONGS
  {
    assert n + (a + b) == (n + a) % LONGS + b + LONGS * ((n + a) / LONGS);
  }

  lemma AfterAppend(t: Tally, u: Tally, a: seq<VoteInfo>, b: seq<VoteInfo>, c: int)
    requires InRange(c) && u[c] == After(t, a, c)
    ensures After(u, b, c) == After(t, a + b, c)
  {
    VotesAppend(a, b, c);
    Wraps(t[c], Votes(a, c), Votes(b, c));
  }

  /** The tally over the server's whole life, broken-off sessions included. */
  lemma {:induction false} ServerCountsVotes(t: Tally, clients: seq<seq<byte>>, c: int)
    requires InRange(c)
    ensures Serve(t, clients)[c] == After(t, History(clients), c)
    decreases |clients|
  {
    if clients != [] {
      SessionCountsVotes(t, clients[0], c);
      ServerCountsVotes(Talk(t, clients[0]).0, clients[1..], c);
      AfterAppend(t, Talk(t, clients[0]).0, Taken(clients[0]), History(clients[1..]), c);
    }
  }
}
