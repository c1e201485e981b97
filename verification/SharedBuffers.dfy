/** The shared-memory buffers of `smb.c`: a free list threaded through the buffers
    themselves, each cell being either link or contents. */
module SharedBuffers {
  import opened Bytes

  const NSMB: nat := 5
  const SMBUFSZ: nat := 256
  const INTSZ: nat := 4

  /** The shared segment: the cells as bytes, and FREE_LIST. */
  datatype Mem = Mem(cells: seq<seq<byte>>, free: int)

  predicate IsInt(i: int) {
    -0x8000_0000 <= i < 0x8000_0000
  }

  /** An `int` in memory, two's complement. */
  function IntBytes(i: int): (b: seq<byte>)
    requires IsInt(i)
    ensures |b| == INTSZ
  {
    Host(if i < 0 then i + WORDS else i)
  }

  function BytesInt(b: seq<byte>): (i: int)
    requires |b| == INTSZ
    ensures IsInt(i)
  {
    var n := FromHost(b);
    if n < 0x8000_0000 then n else n - WORDS
  }

  lemma IntRoundTrip(i: int)
    requires IsInt(i)
    ensures BytesInt(IntBytes(i)) == i
  {
    HostRoundTrip(if i < 0 then i + WORDS else i);
  }

  /** The `nexti` view of a cell: its first bytes, whatever they were written as. */
  function NextI(cell: seq<byte>): int
    requires |cell| == SMBUFSZ
  {
    BytesInt(cell[..INTSZ])
  }

  function SetNextI(cell: seq<byte>, i: int): (c: seq<byte>)
    requires |cell| == SMBUFSZ && IsInt(i)
    ensures |c| == SMBUFSZ
  {
    IntBytes(i) + cell[INTSZ..]
  }

  ghost predicate Sized(m: Mem) {
    |m.cells| == NSMB && IsInt(m.free) && forall i :: 0 <= i < NSMB ==> |m.cells[i]| == SMBUFSZ
  }

  datatype Taken = Buffer(index: nat, m: Mem) | OutOfBuffers

  /** `smballoc` under the lock. */
  function Alloc(m: Mem): Taken
    requires Sized(m) && m.free < NSMB
  {
    if m.free < 0 then OutOfBuffers
    else Buffer(m.free, m.(free := NextI(m.cells[m.free])))
  }

  /** `smbfree` under the lock. */
  function Release(m: Mem, i: nat): Mem
    requires Sized(m) && i < NSMB
  {
    Mem(m.cells[i := SetNextI(m.cells[i], m.free)], i)
  }

  /** The free list runs through exactly these cells, in this order, and ends. */
  ghost predicate FreeChain(m: Mem, chain: seq<nat>) {
    Sized(m) && m.free == Link(chain, 0) &&
    (forall k :: 0 <= k < |chain| ==> chain[k] < NSMB) &&
    (forall j, k :: 0 <= j < k < |chain| ==> chain[j] != chain[k]) &&
    forall k {:trigger m.cells[chain[k]]} :: 0 <= k < |chain| ==> NextI(m.cells[chain[k]]) == Link(chain, k + 1)
  }

  function Link(chain: seq<nat>, k: nat): int {
    if k < |chain| then chain[k] else -1
  }

  lemma AllocPops(m: Mem, chain: seq<nat>)
    requires FreeChain(m, chain)
    ensures m.free < NSMB
    ensures if chain == [] then Alloc(m) == OutOfBuffers
            else Alloc(m).Buffer? && Alloc(m).index == chain[0] && FreeChain(Alloc(m).m, chain[1..])
  {
    if chain != [] {
      var v, rest := Alloc(m).m, chain[1..];
      forall k | 0 <= k < |rest|
        ensures NextI(v.cells[rest[k]]) == Link(rest, k + 1)
      {
        assert rest[k] == chain[k + 1];
      }
    }
  }

  lemma ReleasePushes(m: Mem, chain: seq<nat>, i: nat)
    requires FreeChain(m, chain) && i < NSMB && i !in chain
    ensures FreeChain(Release(m, i), [i] + chain)
  {
    var v := Release(m, i);
    IntRoundTrip(m.free);
    assert v.cells[i][..INTSZ] == IntBytes(m.free);
    var c := [i] + chain;
    forall k | 0 <= k < |c|
      ensures NextI(v.cells[c[k]]) == Link(c, k + 1)
    {
      if 0 < k {
        assert c[k] == chain[k - 1] && chain[k - 1] in chain;
        assert NextI(m.cells[chain[k - 1]]) == Link(chain, k);
      }
    }
  }

  /** Exactly the cells off the list can be overwritten at will without harming it. */
  lemma OverwriteSafe(m: Mem, chain: seq<nat>, i: nat)
    requires FreeChain(m, chain) && i < NSMB
    ensures i !in chain <==>
            forall cell: seq<byte> :: |cell| == SMBUFSZ ==> FreeChain(m.(cells := m.cells[i := cell]), chain)
  {
    if i !in chain {
      forall cell: seq<byte> | |cell| == SMBUFSZ
        ensures FreeChain(m.(cells := m.cells[i := cell]), chain)
      {
        OverwriteKeeps(m, chain, i, cell);
      }
    } else {
      var k :| 0 <= k < |chain| && chain[k] == i;
      var cell := SetNextI(m.cells[i], -2);
      IntRoundTrip(-2);
      assert cell[..INTSZ] == IntBytes(-2);
      var v := m.(cells := m.cells[i := cell]);
      assert NextI(v.cells[chain[k]]) == -2;
      assert !FreeChain(v, chain);
    }
  }

  lemma OverwriteKeeps(m: Mem, chain: seq<nat>, i: nat, cell: seq<byte>)
    requires FreeChain(m, chain) && i < NSMB && i !in chain && |cell| == SMBUFSZ
    ensures FreeChain(m.(cells := m.cells[i := cell]), chain)
  {
    forall k | 0 <= k < |chain|
      ensures chain[k] != i
    {
      assert chain[k] in chain;
    }
  }

  class SharedMemory {
    const smbarray: array<seq<byte>>
    var freeList: int

    ghost function State(): Mem
      reads this, smbarray
    {
      Mem(smbarray[..], freeList)
    }

    /** The segment as the system hands it out, before anybody used it. */
    constructor (contents: seq<seq<byte>>)
      requires |contents| == NSMB && forall i :: 0 <= i < NSMB ==> |contents[i]| == SMBUFSZ
      ensures Sized(State()) && fresh(smbarray)
    {
      smbarray := new seq<byte>[NSMB](i requires 0 <= i < NSMB => contents[i]);
      freeList := 0;
    }

    /** `init_smb( TRUE )`: every buffer goes on the free list, lowest first. */
    method InitFreeList()
      requires Sized(State())
      modifies this, smbarray
      ensures FreeChain(State(), seq(NSMB, i requires 0 <= i < NSMB => i))
    {
      var i := 0;
      while i < NSMB - 1
        invariant 0 <= i <= NSMB - 1 && Sized(State())
        invariant forall k :: 0 <= k < i ==> NextI(smbarray[k]) == k + 1
      {
        IntRoundTrip(i + 1);
        assert SetNextI(smbarray[i], i + 1)[..INTSZ] == IntBytes(i + 1);
        smbarray[i] := SetNextI(smbarray[i], i + 1);
        i := i + 1;
      }
      IntRoundTrip(-1);
      assert SetNextI(smbarray[NSMB - 1], -1)[..INTSZ] == IntBytes(-1);
      smbarray[NSMB - 1] := SetNextI(smbarray[NSMB - 1], -1);
      freeList := 0;
    }

    method SmbAlloc() returns (ok: bool, bp: nat)
      requires Sized(State()) && freeList < NSMB
      modifies this
      ensures ok <==> Alloc(old(State())).Buffer?
      ensures ok ==> Alloc(old(State())) == Buffer(bp, State())
      ensures !ok ==> State() == old(State())
    {
      if freeList < 0 {
        return false, 0;
      }
      ok, bp := true, freeList;
      freeList := NextI(smbarray[bp]);
    }

    method SmbFree(bp: nat)
      requires Sized(State()) && bp < NSMB
      modifies this, smbarray
      ensures State() == Release(old(State()), bp)
    {
      smbarray[bp] := SetNextI(smbarray[bp], freeList);
      freeList := bp;
    }
  }
}
