/** What can be seen from outside of the writer's main loop, and what a script of its world
    should make it do. */
module WriterTrace {
  import opened Options
  import opened Bytes
  import opened TimeVals
  import opened WriterModel
  import opened Protocol
  import Dispatch

  // ---- what happens, and what the script says ----

  /** What can be seen of a step from outside: a round of `tselect` begins, bytes of an ACK are
      received, a message is read from standard input, the peer reads a record. */
  datatype Act = Sampled | Got(n: nat) | Typed(data: seq<byte>) | PeerRead(ignore: bool)

  function Acts(steps: seq<Step>): seq<Act> {
    if steps == [] then [] else Acts(steps[..|steps| - 1]) + Seen(steps[|steps| - 1])
  }

  function Seen(step: Step): seq<Act> {
    match step
    case Sample(_) => [Sampled]
    case Turn(_, _) => []
    case Receiving(n) => [Got(n)]
    case Input(data, _, _) => [Typed(data)]
    case PeerReads(ignore) => [PeerRead(ignore)]
  }

  /** One time round the main loop: the records the peer reads meanwhile, and which of them it
      ignores; what `select` answers until something is ready; how many bytes of ACKs have
      arrived; what there is on standard input. */
  datatype Visit = Visit(ignores: seq<bool>, answers: seq<bool>, bytes: nat, input: Option<seq<byte>>)

  /** How many bytes `recv` asks for and gets, when `have` of an ACK are there. */
  function Chunk(visit: Visit, have: nat): nat
    requires have < ACKSZ
  {
    Min(visit.bytes, ACKSZ - have)
  }

  function Have(visit: Visit, have: nat): (h: nat)
    requires have < ACKSZ
    ensures h < ACKSZ
  {
    if have + Chunk(visit, have) == ACKSZ then 0 else have + Chunk(visit, have)
  }

  function PeerReadings(ignores: seq<bool>): seq<Act> {
    seq(|ignores|, i requires 0 <= i < |ignores| => PeerRead(ignores[i]))
  }

  /** Standard input is passed over when only part of an ACK arrived. */
  function Read(visit: Visit, have: nat): seq<Act>
    requires have < ACKSZ
  {
    if visit.input.Some? && (Chunk(visit, have) == 0 || Have(visit, have) == 0) then [Typed(visit.input.value)] else []
  }

  function Received(visit: Visit, have: nat): seq<Act>
    requires have < ACKSZ
  {
    if Chunk(visit, have) == 0 then [] else [Got(Chunk(visit, have))]
  }

  function Samplings(n: nat): seq<Act> {
    seq(n, _ => Sampled)
  }

  function FromReady(visit: Visit, have: nat): seq<Act>
    requires have < ACKSZ
  {
    if Dispatch.Answered(visit.answers) then Received(visit, have) + Read(visit, have) else []
  }

  function FromSelect(visit: Visit, have: nat): seq<Act>
    requires have < ACKSZ
  {
    Samplings(Dispatch.Rounds(visit.answers)) + FromReady(visit, have)
  }

  /** What should happen in one time round the loop. */
  function Once(visit: Visit, have: nat): seq<Act>
    requires have < ACKSZ
  {
    PeerReadings(visit.ignores) + FromSelect(visit, have)
  }

  /** What should happen altogether; a `select` that is never answered is the end. */
  function Trace(script: seq<Visit>, have: nat): seq<Act>
    requires have < ACKSZ
  {
    if script == [] then []
    else Once(script[0], have) + if Dispatch.Answered(script[0].answers) then Trace(script[1..], Have(script[0], have)) else []
  }

  ghost predicate AllAnswered(script: seq<Visit>) {
    forall i :: 0 <= i < |script| ==> Dispatch.Answered(script[i].answers)
  }

  // ---- what that comes to ----

  /** The messages typed, the bytes received, the records the peer reads, and the rounds of
      `tselect`. */
  datatype Summary = Summary(inputs: seq<seq<byte>>, bytes: nat, ignores: seq<bool>, rounds: nat)

  function Plus(a: Summary, b: Summary): Summary {
    Summary(a.inputs + b.inputs, a.bytes + b.bytes, a.ignores + b.ignores, a.rounds + b.rounds)
  }

  function Summed(acts: seq<Act>): Summary {
    if acts == [] then Nothing() else Plus(One(acts[0]), Summed(acts[1..]))
  }

  function Nothing(): Summary {
    Summary([], 0, [], 0)
  }

  function One(act: Act): Summary {
    match act
    case Sampled => Nothing().(rounds := 1)
    case Got(n) => Nothing().(bytes := n)
    case Typed(data) => Nothing().(inputs := [data])
    case PeerRead(ignore) => Nothing().(ignores := [ignore])
  }

  lemma PlusAssociative(a: Summary, b: Summary, c: Summary)
    ensures Plus(Plus(a, b), c) == Plus(a, Plus(b, c))
  {
    Associative(a.inputs, b.inputs, c.inputs);
    Associative(a.ignores, b.ignores, c.ignores);
  }

  lemma PlusNothing(a: Summary)
    ensures Plus(a, Nothing()) == a == Plus(Nothing(), a)
  {
  }

  lemma {:induction false} SummedAppend(a: seq<Act>, b: seq<Act>)
    ensures Summed(a + b) == Plus(Summed(a), Summed(b))
  {
    if a == [] {
      assert a + b == b;
      PlusNothing(Summed(b));
    } else {
      assert (a + b)[1..] == a[1..] + b;
      SummedAppend(a[1..], b);
      PlusAssociative(One(a[0]), Summed(a[1..]), Summed(b));
    }
  }

  lemma {:induction false} SummedReadings(ignores: seq<bool>)
    ensures Summed(PeerReadings(ignores)) == Summary([], 0, ignores, 0)
  {
    if ignores != [] {
      assert PeerReadings(ignores)[1..] == PeerReadings(ignores[1..]);
      SummedReadings(ignores[1..]);
      assert Plus(One(PeerRead(ignores[0])), Summary([], 0, ignores[1..], 0)) == Summary([], 0, ignores, 0);
    }
  }

  lemma {:induction false} SummedSamplings(n: nat)
    ensures Summed(Samplings(n)) == Summary([], 0, [], n)
  {
    if n != 0 {
      assert Samplings(n)[1..] == Samplings(n - 1);
      SummedSamplings(n - 1);
      assert Plus(One(Sampled), Summary([], 0, [], n - 1)) == Summary([], 0, [], n);
    }
  }

  /** One time round the loop, when `bytes` were received before it: a `recv` takes what has
      arrived, but not more than the ACK lacks, and the message on standard input is read
      unless that leaves an ACK incomplete. */
  function Visited(bytes: nat, v: Visit): Summary {
    var n := Min(v.bytes, ACKSZ - bytes % ACKSZ);
    Summary(if v.input.Some? && (n == 0 || (bytes + n) % ACKSZ == 0) then [v.input.value] else [],
            n, v.ignores, Dispatch.Rounds(v.answers))
  }

  function Expected(script: seq<Visit>): Summary {
    if script == [] then Summary([], 0, [], 0)
    else
      var before := Expected(script[..|script| - 1]);
      Plus(before, Visited(before.bytes, script[|script| - 1]))
  }

  /** How much of an ACK is there after these visits. */
  function HaveAfter(script: seq<Visit>, have: nat): (h: nat)
    requires have < ACKSZ
    ensures h < ACKSZ
  {
    if script == [] then have else HaveAfter(script[1..], Have(script[0], have))
  }

  lemma HaveIsRemainder(v: Visit, bytes: nat, total: nat)
    requires total == bytes + Visited(bytes, v).bytes
    ensures Have(v, bytes % ACKSZ) == total % ACKSZ
  {
  }

  lemma SummedSteps(v: Visit, have: nat)
    requires have < ACKSZ
    ensures Summed(Received(v, have)) == Summary([], Chunk(v, have), [], 0)
    ensures Summed(Read(v, have)) ==
            Summary(if v.input.Some? && (Chunk(v, have) == 0 || Have(v, have) == 0) then [v.input.value] else [], 0, [], 0)
  {
    assert Summed([Got(Chunk(v, have))]) == Plus(One(Got(Chunk(v, have))), Nothing());
    PlusNothing(One(Got(Chunk(v, have))));
    if v.input.Some? {
      assert Summed([Typed(v.input.value)]) == Plus(One(Typed(v.input.value)), Nothing());
      PlusNothing(One(Typed(v.input.value)));
    }
  }

  function Inputs(v: Visit, have: nat): seq<seq<byte>>
    requires have < ACKSZ
  {
    if v.input.Some? && (Chunk(v, have) == 0 || Have(v, have) == 0) then [v.input.value] else []
  }

  lemma SummedReady(v: Visit, have: nat)
    requires have < ACKSZ && Dispatch.Answered(v.answers)
    ensures Summed(FromReady(v, have)) == Summary(Inputs(v, have), Chunk(v, have), [], 0)
  {
    SummedSteps(v, have);
    SummedAppend(Received(v, have), Read(v, have));
  }

  lemma SummedSelect(v: Visit, have: nat)
    requires have < ACKSZ && Dispatch.Answered(v.answers)
    ensures Summed(FromSelect(v, have)) == Summary(Inputs(v, have), Chunk(v, have), [], Dispatch.Rounds(v.answers))
  {
    var n := Dispatch.Rounds(v.answers);
    SummedReady(v, have);
    SummedSamplings(n);
    SummedAppend(Samplings(n), FromReady(v, have));
    assert Plus(Summary([], 0, [], n), Summary(Inputs(v, have), Chunk(v, have), [], 0)) ==
           Summary(Inputs(v, have), Chunk(v, have), [], n);
  }

  lemma SummedOnce(v: Visit, have: nat)
    requires have < ACKSZ && Dispatch.Answered(v.answers)
    ensures Summed(Once(v, have)) == Summary(Inputs(v, have), Chunk(v, have), v.ignores, Dispatch.Rounds(v.answers))
  {
    var n := Dispatch.Rounds(v.answers);
    SummedSelect(v, have);
    SummedReadings(v.ignores);
    SummedAppend(PeerReadings(v.ignores), FromSelect(v, have));
    assert Plus(Summary([], 0, v.ignores, 0), Summary(Inputs(v, have), Chunk(v, have), [], n)) ==
           Summary(Inputs(v, have), Chunk(v, have), v.ignores, n);
  }

  lemma VisitedIs(v: Visit, bytes: nat)
    ensures Visited(bytes, v) ==
            Summary(Inputs(v, bytes % ACKSZ), Chunk(v, bytes % ACKSZ), v.ignores, Dispatch.Rounds(v.answers))
  {
    HaveIsRemainder(v, bytes, bytes + Visited(bytes, v).bytes);
  }

  lemma {:induction false} TraceSnoc(script: seq<Visit>, v: Visit, have: nat)
    requires have < ACKSZ && AllAnswered(script) && Dispatch.Answered(v.answers)
    ensures Trace(script + [v], have) == Trace(script, have) + Once(v, HaveAfter(script, have))
    ensures HaveAfter(script + [v], have) == Have(v, HaveAfter(script, have))
    decreases |script|
  {
    if script == [] {
      assert script + [v] == [v] && [v][1..] == [];
      Finished(Once(v, have));
    } else {
      var h := Have(script[0], have);
      assert (script + [v])[1..] == script[1..] + [v];
      assert Dispatch.Answered(script[0].answers) && AllAnswered(script[1..]);
      TraceSnoc(script[1..], v, h);
      Associative(Once(script[0], have), Trace(script[1..], h), Once(v, HaveAfter(script[1..], h)));
    }
  }

  /** What happens altogether when every `select` is answered: which messages are read, how
      many bytes are received, which records the peer reads and how often the clock is
      sampled. */
  lemma {:induction false} TraceTells(script: seq<Visit>)
    requires AllAnswered(script)
    ensures Summed(Trace(script, 0)) == Expected(script)
    ensures HaveAfter(script, 0) == Expected(script).bytes % ACKSZ
    decreases |script|
  {
    if script != [] {
      var init, v := script[..|script| - 1], script[|script| - 1];
      assert script == init + [v] && AllAnswered(init) && Dispatch.Answered(v.answers);
      TraceTells(init);
      TraceSnoc(init, v, 0);
      OneMoreExpected(Trace(init, 0), HaveAfter(init, 0), init, v);
      OneMoreHave(HaveAfter(init, 0), init, v);
    }
  }

  lemma ExpectedSnoc(init: seq<Visit>, v: Visit)
    ensures Expected(init + [v]) == Plus(Expected(init), Visited(Expected(init).bytes, v))
  {
    assert (init + [v])[..|init|] == init;
  }

  lemma OneMoreExpected(trace: seq<Act>, have: nat, init: seq<Visit>, v: Visit)
    requires Dispatch.Answered(v.answers)
    requires Summed(trace) == Expected(init) && have == Expected(init).bytes % ACKSZ
    ensures Summed(trace + Once(v, have)) == Expected(init + [v])
  {
    ExpectedSnoc(init, v);
    SummedVisit(v, Expected(init).bytes, have);
    SummedAppend(trace, Once(v, have));
  }

  lemma OneMoreHave(have: nat, init: seq<Visit>, v: Visit)
    requires have == Expected(init).bytes % ACKSZ
    ensures Have(v, have) == Expected(init + [v]).bytes % ACKSZ
  {
    ExpectedSnoc(init, v);
    HaveIsRemainder(v, Expected(init).bytes, Expected(init + [v]).bytes);
  }

  lemma SummedVisit(v: Visit, bytes: nat, have: nat)
    requires Dispatch.Answered(v.answers) && have == bytes % ACKSZ
    ensures Summed(Once(v, have)) == Visited(bytes, v)
  {
    SummedOnce(v, have);
    VisitedIs(v, bytes);
  }

  /** A `select` that is never answered is the end: the peer reads, the clock is sampled once
      for each time `select` returns, and nothing else happens, whatever the script says after
      that. */
  lemma {:induction false} TraceStops(script: seq<Visit>, v: Visit, more: seq<Visit>, have: nat)
    requires have < ACKSZ && AllAnswered(script) && !Dispatch.Answered(v.answers)
    ensures Trace(script + [v] + more, have) ==
            Trace(script, have) + (PeerReadings(v.ignores) + Samplings(|v.answers|))
    decreases |script|
  {
    var all := script + [v] + more;
    if script == [] {
      assert all[0] == v;
      Dispatch.RoundsAnswered(v.answers);
      Finished(Samplings(|v.answers|));
      Finished(Once(v, have));
    } else {
      var h := Have(script[0], have);
      assert all[1..] == script[1..] + [v] + more;
      assert Dispatch.Answered(script[0].answers) && AllAnswered(script[1..]);
      TraceStops(script[1..], v, more, h);
      Associative(Once(script[0], have), Trace(script[1..], h), PeerReadings(v.ignores) + Samplings(|v.answers|));
    }
  }

  lemma Finished(acts: seq<Act>)
    ensures acts + [] == acts
  {
  }
}
