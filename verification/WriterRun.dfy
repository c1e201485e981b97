/** The writer's main loop with its channels and its peer: whatever happens, the program's
    execution is a run of Protocol, so that all that ProtocolSafety says of runs holds of it. */
module WriterRun {
  import opened Options
  import opened Bytes
  import opened Records
  import opened TimeVals
  import opened TimerList
  import opened WriterModel
  import opened WriterProgram
  import opened Protocol
  import opened ProtocolSafety
  import opened WriterTrace
  import Dispatch

  // ---- what can happen ----

  /** Whether the world and the program allow it: the peer still reads and has a record, that
      many bytes have arrived, the message fits, there is a cookie and a record for it. */
  ghost predicate Possible(s: System, act: Act) {
    match act
    case Sampled => true
    case Got(n) => n <= |s.toWriter|
    case Typed(data) => |data| <= BUFSZ && s.w.msgid < WORDS && InUse(s.w.mr) < MRSZ
    case PeerRead(_) => s.peerUp && !NextRecord(s.toPeer, PEERBUF).0.Ended?
  }

  // ---- runs grow ----

  ghost function Last(states: seq<System>): System
    requires states != []
  {
    states[|states| - 1]
  }

  /** The steps taken up to now show `acts`, and no timer was left waiting. */
  ghost predicate Shows(states: seq<System>, steps: seq<Step>, acts: seq<Act>) {
    Run(states, steps) && Acts(steps) == acts && Served(states, steps)
  }

  /** No step but a turn of the dispatcher is taken while a timer is due. */
  ghost predicate Served(states: seq<System>, steps: seq<Step>)
    requires |states| == |steps| + 1
  {
    forall i :: 0 <= i < |steps| && !steps[i].Turn? ==> NoTimerDue(states[i])
  }

  lemma OneStep(states: seq<System>, steps: seq<Step>, step: Step, acts: seq<Act>)
    returns (states': seq<System>, steps': seq<Step>)
    requires Shows(states, steps, acts) && Enabled(Last(states), step) && (step.Turn? || NoTimerDue(Last(states)))
    ensures Shows(states', steps', acts + Seen(step)) && Last(states') == Next(Last(states), step)
  {
    states', steps' := states + [Next(Last(states), step)], steps + [step];
    assert steps'[..|steps|] == steps;
  }

  lemma LastIsSafe(states: seq<System>, steps: seq<Step>)
    requires Run(states, steps)
    ensures SysInv(Last(states))
  {
    RunsAreSafe(states, steps, |steps|);
  }

  lemma WriterIsSafe(states: seq<System>, steps: seq<Step>)
    requires Run(states, steps)
    ensures Inv(Last(states).w)
  {
    LastIsSafe(states, steps);
  }

  lemma TurnFollows(states: seq<System>, steps: seq<Step>, init: seq<TimeVal>, t: TimeVal)
    requires Run(states, steps) && Ticking(Last(states).clock, init + [t])
    requires |init| < DueCount(Last(states).w.timers, Last(states).now)
    ensures Enabled(Turned(Last(states), init), Turn(Micros(t), t))
    ensures Turned(Last(states), init + [t]) == Next(Turned(Last(states), init), Turn(Micros(t), t))
  {
    LastIsSafe(states, steps);
    assert (init + [t])[..|init|] == init;
    PassIsTurns(Last(states), init + [t]);
  }

  /** A dispatch pass, turn by turn. */
  lemma {:induction false} Turns(states: seq<System>, steps: seq<Step>, rs: seq<TimeVal>, acts: seq<Act>)
    returns (states': seq<System>, steps': seq<Step>)
    requires Shows(states, steps, acts) && Ticking(Last(states).clock, rs)
    requires |rs| <= DueCount(Last(states).w.timers, Last(states).now)
    ensures Shows(states', steps', acts) && Last(states') == Turned(Last(states), rs)
    decreases |rs|
  {
    if rs == [] {
      states', steps' := states, steps;
    } else {
      var init, t := rs[..|rs| - 1], rs[|rs| - 1];
      assert init + [t] == rs;
      TurnFollows(states, steps, init, t);
      states', steps' := Turns(states, steps, init, acts);
      states', steps' := OneStep(states', steps', Turn(Micros(t), t), acts);
      assert acts + [] == acts;
    }
  }

  /** What a stretch of `tselect` does to the system: the writer moves on to `w`, sending. */
  ghost predicate Moved(s: System, v: System, w: Writer, sent: seq<byte>, end: int) {
    v.w == w && v.clock <= end && v.toPeer == s.toPeer + sent && v.toWriter == s.toWriter && v.peerUp == s.peerUp
  }

  lemma Pass(states: seq<System>, steps: seq<Step>, rs: seq<TimeVal>, end: int, acts: seq<Act>)
    returns (states': seq<System>, steps': seq<Step>)
    requires Shows(states, steps, acts) && Ticking(Last(states).clock, rs) && Dispatch.Rising(rs, end)
    requires Last(states).clock <= end && |rs| <= DueCount(Last(states).w.timers, Last(states).now)
    ensures Shows(states', steps', acts) && Last(states').now == Last(states).now
    ensures var r := Dispatch.Pass(Last(states).w, Last(states).now, rs);
            r.Ok? && Moved(Last(states), Last(states'), r.w, r.sent, end)
  {
    LastIsSafe(states, steps);
    PassIsTurns(Last(states), rs);
    states', steps' := Turns(states, steps, rs, acts);
  }

  lemma RoundReady(w: Writer, sample: Dispatch.Sample, end: int)
    requires Inv(w) && Dispatch.Readings(sample.now, sample.rs) && Dispatch.Rising(sample.rs, end)
    requires DueCount(w.timers, sample.now) <= |sample.rs|
    ensures var rs := sample.rs[..DueCount(w.timers, sample.now)];
            Ticking(Micros(sample.now), rs) && Dispatch.Rising(rs, end) &&
            Dispatch.Pass(w, sample.now, sample.rs) == Dispatch.Pass(w, sample.now, rs)
    ensures var r := Dispatch.Pass(w, sample.now, sample.rs);
            r.Ok? && Dispatch.NoneDue(r.w.timers, sample.now)
  {
    Dispatch.PassEnds(w, sample.now, sample.rs);
  }

  /** One round of `tselect`: the clock is sampled, and what is due is fired. */
  lemma Round(states: seq<System>, steps: seq<Step>, sample: Dispatch.Sample, end: int, acts: seq<Act>)
    returns (states': seq<System>, steps': seq<Step>)
    requires Shows(states, steps, acts) && NoTimerDue(Last(states)) && Last(states).clock <= Micros(sample.now) <= end
    requires Dispatch.Readings(sample.now, sample.rs) && Dispatch.Rising(sample.rs, end)
    requires DueCount(Last(states).w.timers, sample.now) <= |sample.rs|
    ensures Shows(states', steps', acts + [Sampled]) && NoTimerDue(Last(states'))
    ensures var r := Dispatch.Pass(Last(states).w, sample.now, sample.rs);
            r.Ok? && Moved(Last(states), Last(states'), r.w, r.sent, end)
  {
    var w := Last(states).w;
    var rs := sample.rs[..DueCount(w.timers, sample.now)];
    WriterIsSafe(states, steps);
    RoundReady(w, sample, end);
    states', steps' := OneStep(states, steps, Sample(sample.now), acts);
    states', steps' := Pass(states', steps', rs, end, acts + [Sampled]);
  }

  lemma MoreSamplings(acts: seq<Act>, n: nat)
    ensures acts + Samplings(n) + [Sampled] == acts + Samplings(n + 1)
  {
  }

  lemma {:induction false} Select(states: seq<System>, steps: seq<Step>, samples: seq<Dispatch.Sample>, start: int, end: int,
                                  acts: seq<Act>)
    returns (states': seq<System>, steps': seq<Step>)
    requires Shows(states, steps, acts) && NoTimerDue(Last(states)) && Last(states).clock <= start
    requires Dispatch.Complete(Last(states).w, samples) && Dispatch.Chronological(start, samples, end)
    ensures Shows(states', steps', acts + Samplings(|samples|)) && NoTimerDue(Last(states'))
    ensures var r := Dispatch.Passes(Last(states).w, samples);
            r.Ok? && Moved(Last(states), Last(states'), r.w, r.sent, end)
    decreases |samples|
  {
    var s := Last(states);
    if samples == [] {
      states', steps' := states, steps;
      assert s.toPeer + [] == s.toPeer && acts + Samplings(0) == acts;
    } else {
      var n := |samples| - 1;
      Dispatch.PassesKeepInv(s.w, samples);
      states', steps' := Select(states, steps, samples[..n], start, Micros(samples[n].now), acts);
      var v, sent := Last(states'), Dispatch.Passes(s.w, samples[..n]).sent;
      states', steps' := Round(states', steps', samples[n], end, acts + Samplings(n));
      Associative(s.toPeer, sent, Dispatch.Pass(v.w, samples[n].now, samples[n].rs).sent);
      MoreSamplings(acts, n);
    }
  }

  /** A new timer is not due yet. */
  lemma InputIsNotDue(s: System, data: seq<byte>, t: TimeVal)
    requires SysInv(s) && NoTimerDue(s) && Enabled(s, Input(data, Micros(t), t))
    ensures NoTimerDue(Next(s, Input(data, Micros(t), t)))
  {
    DeadlineLater(s.now, t, WriterModel.T1);
    InsertMembers(s.w.timers, Timer(Deadline(t, WriterModel.T1), LostAck, FreeRec(s.w.mr), s.w.nextId));
  }

  lemma ReceivingIsNotDue(s: System, n: nat)
    requires SysInv(s) && NoTimerDue(s) && Enabled(s, Receiving(n))
    ensures NoTimerDue(Next(s, Receiving(n)))
  {
    if |s.w.ack| + n == ACKSZ {
      var i := FindRec(s.w.mr, FromHost((s.w.ack + s.toWriter[..n])[1..]));
      if i < |s.w.mr| {
        RemoveMembers(s.w.timers, s.w.mr[i].id);
      }
    }
  }

  /** Bytes received are a step of the run, and a complete ACK is a sound one. */
  lemma Taken(states: seq<System>, steps: seq<Step>, n: nat, acts: seq<Act>)
    returns (states': seq<System>, steps': seq<Step>)
    requires Shows(states, steps, acts) && NoTimerDue(Last(states))
    requires 0 < n <= |Last(states).toWriter| && n <= ACKSZ - |Last(states).w.ack|
    ensures Shows(states', steps', acts + [Got(n)]) && NoTimerDue(Last(states'))
    ensures var s, v := Last(states), Last(states');
            WriterModel.Receive(s.w, s.toWriter[..n]) == Result.Ok(v.w, []) && v.toWriter == s.toWriter[n..] &&
            v.toPeer == s.toPeer && v.peerUp == s.peerUp && v.clock == s.clock &&
            (|s.w.ack| + n == ACKSZ ==> (s.w.ack + s.toWriter[..n])[0] == ACK)
  {
    LastIsSafe(states, steps);
    AckIsSound(Last(states), n);
    ReceivingIsNotDue(Last(states), n);
    ReceivingDoes(Last(states), n);
    states', steps' := OneStep(states, steps, Receiving(n), acts);
  }

  lemma ReceivingDoes(s: System, n: nat)
    requires Enabled(s, Receiving(n))
    ensures var v := Next(s, Receiving(n));
            WriterModel.Receive(s.w, s.toWriter[..n]) == Result.Ok(v.w, []) && v.toWriter == s.toWriter[n..] &&
            v.toPeer == s.toPeer && v.peerUp == s.peerUp && v.clock == s.clock
  {
  }

  /** A message entered is a step of the run. */
  lemma Entered(states: seq<System>, steps: seq<Step>, data: seq<byte>, t: TimeVal, acts: seq<Act>)
    returns (states': seq<System>, steps': seq<Step>)
    requires Shows(states, steps, acts) && NoTimerDue(Last(states)) && Enabled(Last(states), Input(data, Micros(t), t))
    ensures Shows(states', steps', acts + [Typed(data)]) && NoTimerDue(Last(states'))
    ensures var s, v := Last(states), Last(states');
            v.w == Accept(s.w, data, t).w && v.toPeer == s.toPeer + Accept(s.w, data, t).sent &&
            v.toWriter == s.toWriter && v.peerUp == s.peerUp && v.clock == Micros(t)
  {
    LastIsSafe(states, steps);
    InputIsNotDue(Last(states), data, t);
    states', steps' := OneStep(states, steps, Input(data, Micros(t), t), acts);
  }

  /** A clock reading from then on. */
  function Later(clock: int): (t: TimeVal)
    ensures Normal(t) && clock <= Micros(t)
  {
    TimeVal(clock / MILLION + 1, 0)
  }

  /** A step that shows an act. */
  function StepFor(s: System, act: Act): (step: Step)
    ensures Seen(step) == [act]
  {
    var t := Later(s.clock);
    match act
    case Sampled => Sample(t)
    case Got(n) => Receiving(n)
    case Typed(data) => Input(data, Micros(t), t)
    case PeerRead(ignore) => PeerReads(ignore)
  }

  /** What is possible is what the protocol has a step for. */
  lemma PossibleIsEnabled(s: System, act: Act)
    requires SysInv(s) && (act.Got? ==> 0 < act.n <= ACKSZ - |s.w.ack|)
    ensures Possible(s, act) <==> Enabled(s, StepFor(s, act))
  {
    match act
    case Sampled =>
    case Got(n) => if n <= |s.toWriter| { AckIsSound(s, n); }
    case Typed(data) => InUseAll(s.w.mr);
    case PeerRead(ignore) => if s.peerUp && s.toPeer != [] { NextPacket(s); }
  }

  /** And whatever step the protocol takes, what it shows was possible. */
  lemma SeenIsPossible(s: System, step: Step)
    requires SysInv(s) && Enabled(s, step)
    ensures forall act :: act in Seen(step) ==> Possible(s, act)
  {
    InUseAll(s.w.mr);
  }

  lemma Allowed(states: seq<System>, steps: seq<Step>, data: seq<byte>, t: TimeVal)
    requires Run(states, steps) && |data| <= BUFSZ && Last(states).w.msgid < WORDS
    requires Normal(t) && Last(states).clock <= Micros(t)
    ensures Possible(Last(states), Typed(data)) <==> Enabled(Last(states), Input(data, Micros(t), t))
    ensures Possible(Last(states), Typed(data)) <==> Accept(Last(states).w, data, t).Ok?
    ensures !Possible(Last(states), Typed(data)) ==> InUse(Last(states).w.mr) == MRSZ
  {
    LastIsSafe(states, steps);
    InUseAll(Last(states).w.mr);
  }

  // ---- the program in its world ----

  /** The two byte streams, and whether the peer still reads. */
  datatype Net = Net(toPeer: seq<byte>, toWriter: seq<byte>, peerUp: bool)

  ghost predicate Carries(net: Net, s: System) {
    net == Net(s.toPeer, s.toWriter, s.peerUp)
  }

  /** Only the peer has moved, and the net with it. */
  ghost predicate PeerMoved(s: System, v: System, net: Net) {
    Carries(net, v) && NoTimerDue(v) && v.w == s.w && v.clock == s.clock
  }

  ghost predicate Mirrors(p: Program, net: Net, s: System)
    reads p, p.timers, p.timers.Repr, p.clock, p.mr, p.ack
  {
    p.Shape() && p.State() == s.w && s.clock <= Micros(p.clock.now) && Carries(net, s) && NoTimerDue(s)
  }

  /** The peer reads a record; false if it does not read any more, or there is none. */
  method PeerTurn(net: Net, ignore: bool, ghost states: seq<System>, ghost steps: seq<Step>, ghost acts: seq<Act>)
    returns (ok: bool, net': Net, ghost states': seq<System>, ghost steps': seq<Step>)
    requires Shows(states, steps, acts) && Carries(net, Last(states)) && NoTimerDue(Last(states))
    ensures ok <==> Possible(Last(states), PeerRead(ignore))
    ensures Shows(states', steps', if ok then acts + [PeerRead(ignore)] else acts)
    ensures !ok ==> states' == states
    ensures PeerMoved(Last(states), Last(states'), net')
  {
    var (o, rest) := NextRecord(net.toPeer, PEERBUF);
    if !net.peerUp || o.Ended? {
      return false, net, states, steps;
    }
    LastIsSafe(states, steps);
    NextPacket(Last(states));
    states', steps' := OneStep(states, steps, PeerReads(ignore), acts);
    ok := true;
    if o.TooLong? {
      net' := net.(toPeer := rest, peerUp := false);
    } else {
      net' := net.(toPeer := rest, toWriter := if ignore then net.toWriter else net.toWriter + AckFrame(o.bytes[..COOKIESZ]));
    }
  }

  lemma MorePeerReadings(acts: seq<Act>, ignores: seq<bool>, k: nat)
    requires k < |ignores|
    ensures acts + PeerReadings(ignores[..k]) + [PeerRead(ignores[k])] == acts + PeerReadings(ignores[..k + 1])
  {
  }

  /** The peer's turns, as many as it can take. */
  method PeerTurns(net: Net, ignores: seq<bool>, ghost states: seq<System>, ghost steps: seq<Step>, ghost acts: seq<Act>)
    returns (k: nat, net': Net, ghost states': seq<System>, ghost steps': seq<Step>)
    requires Shows(states, steps, acts) && Carries(net, Last(states)) && NoTimerDue(Last(states))
    ensures k <= |ignores| && Shows(states', steps', acts + PeerReadings(ignores[..k]))
    ensures k < |ignores| ==> !Possible(Last(states'), PeerRead(ignores[k]))
    ensures PeerMoved(Last(states), Last(states'), net')
  {
    k, net', states', steps' := 0, net, states, steps;
    assert acts + PeerReadings(ignores[..0]) == acts;
    while k < |ignores|
      invariant k <= |ignores| && Shows(states', steps', acts + PeerReadings(ignores[..k]))
      invariant PeerMoved(Last(states), Last(states'), net')
    {
      var ok;
      MorePeerReadings(acts, ignores, k);
      ok, net', states', steps' := PeerTurn(net', ignores[k], states', steps', acts + PeerReadings(ignores[..k]));
      if !ok {
        return;
      }
      k := k + 1;
    }
  }

  /** `n` bytes are received; `goOn` if they complete an ACK. */
  method Receive(p: Program, net: Net, n: nat, ghost states: seq<System>, ghost steps: seq<Step>, ghost acts: seq<Act>)
    returns (goOn: bool, net': Net, ghost states': seq<System>, ghost steps': seq<Step>)
    requires Shows(states, steps, acts) && Mirrors(p, net, Last(states)) && 0 < n <= |net.toWriter| && n <= ACKSZ - p.cnt
    modifies p`cnt, p.mr, p.ack, p.timers.Repr
    ensures Shows(states', steps', acts + [Got(n)]) && Mirrors(p, net', Last(states'))
    ensures p.timers.Repr == old(p.timers.Repr) && p.clock.now == old(p.clock.now)
    ensures p.cnt == if old(p.cnt) + n == ACKSZ then 0 else old(p.cnt) + n
    ensures goOn <==> p.cnt == 0
  {
    states', steps' := Taken(states, steps, n, acts);
    var ok;
    ok, goOn := p.HandleAck(net.toWriter[..n]);
    net' := net.(toWriter := net.toWriter[n..]);
  }

  /** Standard input is readable; false if there is no record for the message and the program
      exits. */
  method Enter(p: Program, net: Net, data: seq<byte>, ghost states: seq<System>, ghost steps: seq<Step>, ghost acts: seq<Act>)
    returns (ok: bool, net': Net, ghost states': seq<System>, ghost steps': seq<Step>)
    requires Shows(states, steps, acts) && Mirrors(p, net, Last(states)) && |data| <= BUFSZ && p.msgid < WORDS
    modifies p`sent, p`msgid, p.mr, p.clock, p.timers.Repr
    ensures fresh(p.timers.Repr - old(p.timers.Repr))
    ensures ok <==> Possible(Last(states), Typed(data))
    ensures ok ==> Shows(states', steps', acts + [Typed(data)]) && Mirrors(p, net', Last(states'))
    ensures !ok ==> states' == states && steps' == steps && InUse(Last(states).w.mr) == MRSZ
  {
    var before := |p.sent|;
    ghost var t;
    ok, t := p.HandleInput(data);
    Allowed(states, steps, data, t);
    if !ok {
      return false, net, states, steps;
    }
    states', steps' := Entered(states, steps, data, t, acts);
    net' := net.(toPeer := net.toPeer + p.sent[before..]);
  }

  /** `tselect`, until something is readable or the answers end. */
  method Wait(p: Program, net: Net, answers: seq<bool>, ghost states: seq<System>, ghost steps: seq<Step>, ghost acts: seq<Act>)
    returns (ready: bool, net': Net, ghost states': seq<System>, ghost steps': seq<Step>)
    requires Shows(states, steps, acts) && Mirrors(p, net, Last(states))
    modifies p`sent, p.mr, p.clock, p.timers.Repr
    ensures fresh(p.timers.Repr - old(p.timers.Repr))
    ensures Shows(states', steps', acts + Samplings(Dispatch.Rounds(answers))) && Mirrors(p, net', Last(states'))
    ensures ready <==> Dispatch.Answered(answers)
  {
    ghost var w, start := p.State(), Micros(p.clock.now);
    var before := |p.sent|;
    WriterIsSafe(states, steps);
    assert p.sent + [] == p.sent;
    ghost var samples;
    ready, samples := p.TSelect(answers, w, [], p.sent, start);
    states', steps' := Select(states, steps, samples, start, Micros(p.clock.now), acts);
    net' := net.(toPeer := net.toPeer + p.sent[before..]);
  }

  /** What became of a time round the loop: it goes on; nothing more becomes readable; the
      script asks for what cannot happen; or the program exits for want of a record. */
  datatype Outcome = GoOn | Blocked | Misfit | Exited

  /** Everything that should have happened has, except `left`; and the first of that cannot. */
  ghost predicate Undone(s: System, left: seq<Act>, outcome: Outcome) {
    (left == [] <==> outcome.GoOn? || outcome.Blocked?) &&
    (left != [] ==> !Possible(s, left[0])) &&
    (outcome.Exited? <==> left != [] && left[0].Typed? && |left[0].data| <= BUFSZ && s.w.msgid < WORDS) &&
    (outcome.Exited? ==> InUse(s.w.mr) == MRSZ)
  }

  /** What is done and what is left make up what should be. */
  ghost predicate Whole(states: seq<System>, steps: seq<Step>, left: seq<Act>, all: seq<Act>) {
    Shows(states, steps, Acts(steps)) && Acts(steps) + left == all
  }

  /** The message on standard input, if the loop gets to it. */
  method ReadInput(p: Program, net: Net, visit: Visit, goOn: bool, ghost have: nat, ghost states: seq<System>, ghost steps: seq<Step>, ghost acts: seq<Act>)
    returns (outcome: Outcome, net': Net, ghost states': seq<System>, ghost steps': seq<Step>, ghost left: seq<Act>)
    requires Shows(states, steps, acts) && Mirrors(p, net, Last(states))
    requires have < ACKSZ && (goOn <==> Chunk(visit, have) == 0 || Have(visit, have) == 0)
    modifies p`sent, p`msgid, p.mr, p.clock, p.timers.Repr
    ensures fresh(p.timers.Repr - old(p.timers.Repr)) && !outcome.Blocked?
    ensures Whole(states', steps', left, acts + Read(visit, have)) && Undone(Last(states'), left, outcome)
    ensures !outcome.Exited? ==> Mirrors(p, net', Last(states'))
  {
    net', states', steps', left := net, states, steps, Read(visit, have);
    if !goOn || visit.input.None? {
      return GoOn, net', states', steps', left;
    }
    if BUFSZ < |visit.input.value| || WORDS <= p.msgid {
      return Misfit, net', states', steps', left;
    }
    var ok;
    ok, net', states', steps' := Enter(p, net, visit.input.value, states, steps, acts);
    if !ok {
      return Exited, net', states', steps', left;
    }
    outcome, left := GoOn, [];
    Finished(acts + Read(visit, have));
  }

  /** What the main loop does once something is readable. */
  method Serve(p: Program, net: Net, visit: Visit, ghost states: seq<System>, ghost steps: seq<Step>, ghost acts: seq<Act>)
    returns (outcome: Outcome, net': Net, ghost states': seq<System>, ghost steps': seq<Step>, ghost left: seq<Act>)
    requires Shows(states, steps, acts) && Mirrors(p, net, Last(states))
    modifies p`cnt, p`sent, p`msgid, p.mr, p.ack, p.clock, p.timers.Repr
    ensures fresh(p.timers.Repr - old(p.timers.Repr)) && !outcome.Blocked?
    ensures Whole(states', steps', left, acts + (Received(visit, old(p.cnt)) + Read(visit, old(p.cnt))))
    ensures Undone(Last(states'), left, outcome)
    ensures !outcome.Exited? ==> Mirrors(p, net', Last(states'))
    ensures outcome.GoOn? ==> p.cnt == Have(visit, old(p.cnt))
  {
    ghost var have, all := p.cnt, Received(visit, p.cnt) + Read(visit, p.cnt);
    var n, goOn := Min(visit.bytes, ACKSZ - p.cnt), true;
    net', states', steps' := net, states, steps;
    if |net.toWriter| < n {
      return Misfit, net, states, steps, all;
    }
    if 0 < n {
      goOn, net', states', steps' := Receive(p, net, n, states, steps, acts);
    }
    Associative(acts, Received(visit, have), Read(visit, have));
    Finished(acts);
    outcome, net', states', steps', left := ReadInput(p, net', visit, goOn, have, states', steps', acts + Received(visit, have));
  }

  /** One time round the main loop, the peer reading meanwhile. */
  method GoRound(p: Program, net: Net, visit: Visit, ghost states: seq<System>, ghost steps: seq<Step>, ghost acts: seq<Act>)
    returns (outcome: Outcome, net': Net, ghost states': seq<System>, ghost steps': seq<Step>, ghost left: seq<Act>)
    requires Shows(states, steps, acts) && Mirrors(p, net, Last(states))
    modifies p`cnt, p`sent, p`msgid, p.mr, p.ack, p.clock, p.timers.Repr
    ensures fresh(p.timers.Repr - old(p.timers.Repr))
    ensures Whole(states', steps', left, acts + Once(visit, old(p.cnt))) && Undone(Last(states'), left, outcome)
    ensures !outcome.Exited? ==> Mirrors(p, net', Last(states'))
    ensures outcome.GoOn? ==> Dispatch.Answered(visit.answers) && p.cnt == Have(visit, old(p.cnt))
    ensures outcome.Blocked? ==> !Dispatch.Answered(visit.answers)
  {
    ghost var have, asleep := p.cnt, PeerReadings(visit.ignores);
    ghost var waited := Samplings(Dispatch.Rounds(visit.answers));
    var k;
    k, net', states', steps' := PeerTurns(net, visit.ignores, states, steps, acts);
    if k < |visit.ignores| {
      left := PeerReadings(visit.ignores[k..]) + FromSelect(visit, have);
      ReadingsLeft(acts, visit.ignores, k, FromSelect(visit, have));
      return Misfit, net', states', steps', left;
    }
    assert visit.ignores[..k] == visit.ignores;
    var ready;
    ready, net', states', steps' := Wait(p, net', visit.answers, states', steps', acts + asleep);
    InThree(acts, asleep, waited, FromReady(visit, have));
    if !ready {
      Finished(acts + asleep + waited);
      return Blocked, net', states', steps', [];
    }
    outcome, net', states', steps', left := Serve(p, net', visit, states', steps', acts + asleep + waited);
  }

  lemma ReadingsLeft(acts: seq<Act>, ignores: seq<bool>, k: nat, more: seq<Act>)
    requires k < |ignores|
    ensures PeerReadings(ignores[k..])[0] == PeerRead(ignores[k])
    ensures acts + PeerReadings(ignores[..k]) + (PeerReadings(ignores[k..]) + more) == acts + (PeerReadings(ignores) + more)
  {
    assert PeerReadings(ignores) == PeerReadings(ignores[..k]) + PeerReadings(ignores[k..]);
  }

  lemma InThree(acts: seq<Act>, a: seq<Act>, b: seq<Act>, c: seq<Act>)
    ensures acts + (a + (b + c)) == acts + a + b + c
  {
  }

  /** Where the program may end: with everything done that the script asks for, or at the
      first thing that cannot happen; and it exits only for want of a record. */
  ghost predicate Ends(script: seq<Visit>, outcome: Outcome, s: System, steps: seq<Step>, left: seq<Act>) {
    Acts(steps) + left == Trace(script, 0) && Undone(s, left, outcome) &&
    (outcome.GoOn? ==> AllAnswered(script) && Summed(Acts(steps)) == Expected(script)) && (outcome.Blocked? ==> !AllAnswered(script))
  }

  /** What should happen after the n-th time round the loop. */
  function Rest(script: seq<Visit>, n: nat, have: nat): seq<Act>
    requires n < |script| && have < ACKSZ
  {
    if Dispatch.Answered(script[n].answers) then Trace(script[n + 1..], Have(script[n], have)) else []
  }

  /** The first `n` times round the loop are done, with `have` bytes of an ACK left over. */
  ghost predicate Underway(script: seq<Visit>, n: nat, have: nat, acts: seq<Act>) {
    n <= |script| && have < ACKSZ && acts + Trace(script[n..], have) == Trace(script, 0) &&
    forall i :: 0 <= i < n ==> Dispatch.Answered(script[i].answers)
  }

  /** One time round the loop more, and it is the end unless the loop goes on. */
  lemma OneVisitMore(acts: seq<Act>, script: seq<Visit>, n: nat, have: nat, s: System, steps: seq<Step>, left: seq<Act>, outcome: Outcome)
    requires n < |script| && Underway(script, n, have, acts)
    requires Acts(steps) + left == acts + Once(script[n], have) && Undone(s, left, outcome)
    requires outcome.GoOn? ==> Dispatch.Answered(script[n].answers)
    requires outcome.Blocked? ==> !Dispatch.Answered(script[n].answers)
    ensures outcome.GoOn? ==> Underway(script, n + 1, Have(script[n], have), Acts(steps))
    ensures !outcome.GoOn? ==> Ends(script, outcome, s, steps, left + Rest(script, n, have))
  {
    assert script[n..][1..] == script[n + 1..];
    Associative(Acts(steps), left, Rest(script, n, have));
    Associative(acts, Once(script[n], have), Rest(script, n, have));
    Finished(Acts(steps));
  }

  lemma AllDone(script: seq<Visit>, have: nat, s: System, steps: seq<Step>)
    requires Underway(script, |script|, have, Acts(steps))
    ensures Ends(script, GoOn, s, steps, [])
  {
    TraceTells(script);
    Finished(Acts(steps));
  }

  lemma NothingDone(script: seq<Visit>)
    ensures Underway(script, 0, 0, [])
  {
    assert script[0..] == script;
  }

  method GoOnce(p: Program, net: Net, script: seq<Visit>, n: nat, ghost states: seq<System>, ghost steps: seq<Step>)
    returns (outcome: Outcome, net': Net, ghost states': seq<System>, ghost steps': seq<Step>, ghost left: seq<Act>)
    requires n < |script| && Shows(states, steps, Acts(steps)) && Mirrors(p, net, Last(states))
    requires Underway(script, n, p.cnt, Acts(steps))
    modifies p`cnt, p`sent, p`msgid, p.mr, p.ack, p.clock, p.timers.Repr
    ensures fresh(p.timers.Repr - old(p.timers.Repr)) && Shows(states', steps', Acts(steps'))
    ensures !outcome.Exited? ==> Mirrors(p, net', Last(states'))
    ensures if outcome.GoOn? then Underway(script, n + 1, p.cnt, Acts(steps'))
            else Ends(script, outcome, Last(states'), steps', left)
  {
    ghost var acts, have := Acts(steps), p.cnt;
    outcome, net', states', steps', left := GoRound(p, net, script[n], states, steps, acts);
    OneVisitMore(acts, script, n, have, Last(states'), steps', left, outcome);
    left := left + Rest(script, n, have);
  }

  method Begin(now: TimeVal, ticks: seq<nat>)
    returns (p: Program, net: Net, ghost states: seq<System>, ghost steps: seq<Step>)
    requires Normal(now)
    ensures fresh(p) && fresh(p.timers) && fresh(p.timers.Repr) && fresh(p.mr) && fresh(p.ack) && fresh(p.clock)
    ensures steps == [] && p.cnt == 0 && Shows(states, steps, []) && Mirrors(p, net, Last(states))
  {
    p := new Program(now, ticks);
    states, steps := [Start(now)], [];
    net := Net([], [], true);
    assert |p.State().ack| == 0;
  }

  /** The whole program, from its start on. It leaves behind the run it was: it does what the
      script asks for, in that order, up to the first thing that cannot happen, and never
      leaves a timer waiting that is due. */
  method Execute(now: TimeVal, ticks: seq<nat>, script: seq<Visit>)
    returns (p: Program, outcome: Outcome, ghost states: seq<System>, ghost steps: seq<Step>, ghost left: seq<Act>)
    requires Normal(now)
    ensures Run(states, steps) && Served(states, steps) && Ends(script, outcome, Last(states), steps, left)
    ensures !outcome.Exited? ==> p.Shape() && p.State() == Last(states).w && NoTimerDue(Last(states))
  {
    var net;
    p, net, states, steps := Begin(now, ticks);
    outcome, left := GoOn, [];
    NothingDone(script);
    for n := 0 to |script|
      invariant outcome.GoOn? && Shows(states, steps, Acts(steps)) && Mirrors(p, net, Last(states))
      invariant fresh(p) && fresh(p.timers) && fresh(p.timers.Repr) && fresh(p.mr) && fresh(p.ack) && fresh(p.clock)
      invariant Underway(script, n, p.cnt, Acts(steps))
    {
      outcome, net, states, steps, left := GoOnce(p, net, script, n, states, steps);
      if !outcome.GoOn? {
        return;
      }
    }
    AllDone(script, p.cnt, Last(states), steps);
    left := [];
  }
}
