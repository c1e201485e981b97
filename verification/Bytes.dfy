/** Bytes on the wire and in shared memory: 32-bit words in network and in host order. */
module Bytes {
  type byte = x: int | 0 <= x < 256

  const WORDS := 0x1_0000_0000

  function Pair(high: int, low: int): int {
    256 * high + low
  }

  /** `htons` */
  function NetShort(n: nat): (b: seq<byte>)
    requires n < 0x1_0000
    ensures |b| == 2 && Pair(b[0], b[1]) == n
  {
    [n / 256, n % 256]
  }

  /** The bytes of a number, the most significant first. */
  function BigEndian(n: nat, k: nat): (b: seq<byte>)
    ensures |b| == k
    decreases n, k
  {
    if k == 0 then [] else BigEndian(n / 256, k - 1) + [n % 256]
  }

  function Value(b: seq<byte>): nat {
    if b == [] then 0 else 256 * Value(b[..|b| - 1]) + b[|b| - 1]
  }

  /** How many numbers have `k` bytes. */
  function Power(k: nat): nat {
    if k == 0 then 1 else 256 * Power(k - 1)
  }

  lemma {:induction false} ValueBelow(b: seq<byte>)
    ensures Value(b) < Power(|b|)
  {
    if b != [] {
      ValueBelow(b[..|b| - 1]);
    }
  }

  lemma {:induction false} ValueOfBytes(n: nat, k: nat)
    requires n < Power(k)
    ensures Value(BigEndian(n, k)) == n
    decreases k
  {
    if k != 0 {
      ValueOfBytes(n / 256, k - 1);
      assert BigEndian(n, k)[..k - 1] == BigEndian(n / 256, k - 1);
    }
  }

  lemma {:induction false} BytesOfValue(b: seq<byte>)
    ensures BigEndian(Value(b), |b|) == b
  {
    if b != [] {
      BytesOfValue(b[..|b| - 1]);
      assert Value(b) / 256 == Value(b[..|b| - 1]);
    }
  }

  /** `htonl` */
  function Net(n: nat): (b: seq<byte>)
    requires n < WORDS
    ensures |b| == 4
  {
    BigEndian(n, 4)
  }

  /** `ntohl` */
  function FromNet(b: seq<byte>): (n: nat)
    requires |b| == 4
    ensures n < WORDS
  {
    ValueBelow(b);
    Value(b)
  }

  lemma NetRoundTrip(n: nat)
    requires n < WORDS
    ensures FromNet(Net(n)) == n
  {
    ValueOfBytes(n, 4);
  }

  lemma FromNetRoundTrip(b: seq<byte>)
    requires |b| == 4
    ensures Net(FromNet(b)) == b
  {
    BytesOfValue(b);
  }

  /** Network order: the first byte counts most. */
  lemma NetworkOrder(b: seq<byte>)
    requires |b| == 4
    ensures FromNet(b) == Pair(Pair(Pair(b[0], b[1]), b[2]), b[3])
  {
    assert b[..3][..2] == b[..2] && b[..2][..1] == b[..1] && b[..1][..0] == [];
    assert Value(b[..1]) == b[0] && Value(b[..2]) == Pair(b[0], b[1]) && Value(b[..3]) == Pair(Pair(b[0], b[1]), b[2]);
  }

  /** A word as it lies in memory, copied without conversion; least significant byte first. */
  function Host(n: nat): (b: seq<byte>)
    requires n < WORDS
    ensures |b| == 4
  {
    var m := Net(n);
    [m[3], m[2], m[1], m[0]]
  }

  function FromHost(b: seq<byte>): (n: nat)
    requires |b| == 4
    ensures n < WORDS
  {
    FromNet([b[3], b[2], b[1], b[0]])
  }

  lemma HostRoundTrip(n: nat)
    requires n < WORDS
    ensures FromHost(Host(n)) == n
  {
    NetRoundTrip(n);
    assert [Host(n)[3], Host(n)[2], Host(n)[1], Host(n)[0]] == Net(n);
  }

  lemma Associative<T>(a: seq<T>, b: seq<T>, c: seq<T>)
    ensures (a + b) + c == a + (b + c)
  {
  }

  function Concat<T>(parts: seq<seq<T>>): seq<T> {
    if parts == [] then [] else parts[0] + Concat(parts[1..])
  }

  function Min(a: int, b: int): int {
    if a < b then a else b
  }

  /** `memcpy` into a buffer. */
  method Store(buf: array<byte>, off: nat, bytes: seq<byte>)
    requires off + |bytes| <= buf.Length
    modifies buf
    ensures buf[..] == old(buf[..off]) + bytes + old(buf[off + |bytes|..])
    ensures forall i :: 0 <= i < buf.Length ==> buf[i] == if off <= i < off + |bytes| then bytes[i - off] else old(buf[i])
  {
    for i := 0 to |bytes|
      invariant forall k :: 0 <= k < buf.Length ==>
          buf[k] == if off <= k < off + i then bytes[k - off] else old(buf[k])
    {
      buf[off + i] := bytes[i];
    }
  }
}
