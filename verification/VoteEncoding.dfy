/** The binary form of vote messages (`VoteEncodingBin.c`). */
module VoteEncoding {
  import opened Bytes
  import opened Options
  import opened VoteProtocol

  const REQUEST_SIZE := 4
  const RESPONSE_SIZE := 12
  const INQUIRE_FLAG := 0x0100
  const RESPONSE_FLAG := 0x0200
  const MAGIC := 0x5400

  function Header(v: VoteInfo): (h: nat)
    ensures h < 0x1_0000
  {
    MAGIC + (if v.isInquiry then INQUIRE_FLAG else 0) + (if v.isResponse then RESPONSE_FLAG else 0)
  }

  /** The message on the wire; only the low 16 bits of the candidate are sent. */
  function Message(v: VoteInfo): (b: seq<byte>)
    ensures |b| == if v.isResponse then RESPONSE_SIZE else REQUEST_SIZE
  {
    NetShort(Header(v)) + NetShort(v.candidate % 0x1_0000) +
    if v.isResponse then Net(v.count / WORDS) + Net(v.count % WORDS) else []
  }

  /** `Encode`: the message, and zeros behind it up to the size of the longer form; the program
      dies exactly when the message does not fit. */
  method Encode(v: VoteInfo, outBuf: array<byte>, bufSize: nat) returns (size: Option<nat>)
    requires bufSize <= outBuf.Length && RESPONSE_SIZE <= outBuf.Length
    modifies outBuf
    ensures size == if bufSize < |Message(v)| then None else Some(|Message(v)|)
    ensures size.None? ==> outBuf[..] == old(outBuf[..])
    ensures size.Some? ==> forall i :: 0 <= i < outBuf.Length ==>
      outBuf[i] == if i < size.value then Message(v)[i] else if i < RESPONSE_SIZE then 0 else old(outBuf[i])
  {
    if (v.isResponse && bufSize < RESPONSE_SIZE) || bufSize < REQUEST_SIZE {
      return None;
    }
    Store(outBuf, 0, seq(RESPONSE_SIZE, i => 0));
    var header := MAGIC;
    if v.isInquiry {
      header := header + INQUIRE_FLAG;
    }
    if v.isResponse {
      header := header + RESPONSE_FLAG;
    }
    Store(outBuf, 0, NetShort(header));
    Store(outBuf, 2, NetShort(v.candidate % 0x1_0000));
    if !v.isResponse {
      return Some(REQUEST_SIZE);
    }
    Store(outBuf, 4, Net(v.count / WORDS));
    Store(outBuf, 8, Net(v.count % WORDS));
    return Some(RESPONSE_SIZE);
  }

  /** Long enough, and the magic number in the top six bits. */
  predicate Genuine(b: seq<byte>) {
    REQUEST_SIZE <= |b| && Pair(b[0], b[1]) / 0x400 == MAGIC / 0x400
  }

  function Flag(b: seq<byte>, flag: nat): bool
    requires 2 <= |b| && 0 < flag
  {
    Pair(b[0], b[1]) / flag % 2 == 1
  }

  /** What `Decode` makes of a genuine message; the count is not touched unless it was sent. */
  function Meaning(b: seq<byte>, count: u64): VoteInfo
    requires Genuine(b)
  {
    var response := Flag(b, RESPONSE_FLAG);
    VoteInfo(
      if response && RESPONSE_SIZE <= |b| then WORDS * FromNet(b[4..8]) + FromNet(b[8..12]) else count,
      Pair(b[2], b[3]), Flag(b, INQUIRE_FLAG), response)
  }

  /** `Decode`. The header is looked at before the size. */
  method Decode(inBuf: array<byte>, mSize: nat, v: VoteStruct) returns (ok: bool)
    requires mSize <= inBuf.Length && 2 <= inBuf.Length
    modifies v
    ensures ok <==> Genuine(inBuf[..mSize])
    ensures v.Info() == if ok then Meaning(inBuf[..mSize], old(v.count)) else old(v.Info())
  {
    ghost var b := inBuf[..mSize];
    var header := Pair(inBuf[0], inBuf[1]);
    if mSize < REQUEST_SIZE || header / 0x400 != MAGIC / 0x400 {
      return false;
    }
    v.isResponse := header / RESPONSE_FLAG % 2 == 1;
    v.isInquiry := header / INQUIRE_FLAG % 2 == 1;
    v.candidate := Pair(inBuf[2], inBuf[3]);
    if v.isResponse && RESPONSE_SIZE <= mSize {
      v.count := WORDS * FromNet(inBuf[4..8]) + FromNet(inBuf[8..12]);
      assert inBuf[4..8] == b[4..8] && inBuf[8..12] == b[8..12];
    }
    return true;
  }

  /** Eight bytes as a number, the first counting most. */
  function Octets(b: seq<byte>): int
    requires |b| == 8
  {
    Pair(Pair(Pair(Pair(Pair(Pair(Pair(b[0], b[1]), b[2]), b[3]), b[4]), b[5]), b[6]), b[7])
  }

  /** The wire format, byte by byte: six bits of magic number (the letter T), the response bit
      and the inquiry bit; a zero byte; the candidate in network order; and in a response the
      count in network order. */
  lemma Layout(v: VoteInfo)
    ensures var b := Message(v);
            b[0] == 0x54 + (if v.isResponse then 2 else 0) + (if v.isInquiry then 1 else 0) && b[1] == 0 &&
            Pair(b[2], b[3]) == v.candidate % 0x1_0000 &&
            (v.isResponse ==> Octets(b[4..12]) == v.count)
  {
    var b := Message(v);
    assert b[0] == Header(v) / 256 && b[1] == Header(v) % 256;
    if v.isResponse {
      assert b[4..12] == Net(v.count / WORDS) + Net(v.count % WORDS);
      OctetsOfCount(v.count);
    }
  }

  lemma OctetsOfCount(count: u64)
    ensures Octets(Net(count / WORDS) + Net(count % WORDS)) == count
  {
    var a, b := Net(count / WORDS), Net(count % WORDS);
    NetRoundTrip(count / WORDS);
    NetRoundTrip(count % WORDS);
    NetworkOrder(a);
    NetworkOrder(b);
    OctetsAre(a, b);
  }

  lemma OctetsAre(a: seq<byte>, b: seq<byte>)
    requires |a| == |b| == 4
    ensures Octets(a + b) == WORDS * Pair(Pair(Pair(a[0], a[1]), a[2]), a[3]) + Pair(Pair(Pair(b[0], b[1]), b[2]), b[3])
  {
  }

  /** Every message is genuine, and means what was put in exactly if the candidate fits 16 bits
      and a request carries no count. */
  lemma MessageRoundTrip(v: VoteInfo)
    ensures Genuine(Message(v))
    ensures Meaning(Message(v), 0) == v <==> 0 <= v.candidate < 0x1_0000 && (v.isResponse || v.count == 0)
  {
    var b := Message(v);
    HeaderFlags(v);
    assert Pair(b[0], b[1]) == Header(v) && Pair(b[2], b[3]) == v.candidate % 0x1_0000;
    if v.isResponse {
      var high, low := v.count / WORDS, v.count % WORDS;
      assert b[4..8] == Net(high) && b[8..12] == Net(low);
      NetRoundTrip(high);
      NetRoundTrip(low);
      assert Meaning(b, 0).count == WORDS * high + low;
    }
  }

  lemma HeaderFlags(v: VoteInfo)
    ensures Header(v) / 0x400 == MAGIC / 0x400
    ensures Header(v) / INQUIRE_FLAG % 2 == 1 <==> v.isInquiry
    ensures Header(v) / RESPONSE_FLAG % 2 == 1 <==> v.isResponse
  {
  }

  /** Encoding what was decoded gives the same bytes back exactly if their length is the right
      one for their kind and the unused bits of the header are zero. */
  lemma BytesRoundTrip(b: seq<byte>)
    requires Genuine(b)
    ensures Message(Meaning(b, 0)) == b <==>
            b[1] == 0 && |b| == if Flag(b, RESPONSE_FLAG) then RESPONSE_SIZE else REQUEST_SIZE
  {
    var v := Meaning(b, 0);
    var m := Message(v);
    HeaderBytes(b[0], b[1]);
    assert m[0] == b[0] && m[1] == 0 && m[2] == b[2] && m[3] == b[3];
    assert b[1] == 0 ==> m[..4] == b[..4];
    if v.isResponse && RESPONSE_SIZE == |b| {
      CountBytes(b[4..8], b[8..12]);
      assert m[4..8] == b[4..8] && m[8..12] == b[8..12];
      assert m == m[..4] + m[4..8] + m[8..12] && b == b[..4] + b[4..8] + b[8..12];
    } else if !v.isResponse && REQUEST_SIZE == |b| {
      assert m == m[..4] && b == b[..4];
    }
  }

  lemma CountBytes(a: seq<byte>, b: seq<byte>)
    requires |a| == |b| == 4
    ensures var count := WORDS * FromNet(a) + FromNet(b);
            0 <= count < LONGS && Net(count / WORDS) == a && Net(count % WORDS) == b
  {
    FromNetRoundTrip(a);
    FromNetRoundTrip(b);
    var count := WORDS * FromNet(a) + FromNet(b);
    assert count / WORDS == FromNet(a) && count % WORDS == FromNet(b);
  }

  /** The magic number and the two flags are all of the header's first byte. */
  lemma HeaderBytes(b0: byte, b1: byte)
    requires Pair(b0, b1) / 0x400 == MAGIC / 0x400
    ensures b0 == 84 + (if Pair(b0, b1) / INQUIRE_FLAG % 2 == 1 then 1 else 0)
                     + (if Pair(b0, b1) / RESPONSE_FLAG % 2 == 1 then 2 else 0)
  {
  }
}
