/** `xout3.c` and the dispatch loop of `tselect.c` as they run: an array of message records
    and a pointer-linked timer queue, updated in place. Every method is shown to make the
    transition of WriterModel and Dispatch it stands for. */
module WriterProgram {
  import opened Options
  import opened Bytes
  import opened TimeVals
  import opened TimerList
  import opened TimerQueue
  import opened WriterModel
  import opened Dispatch

  /** `gettimeofday`; `ticks` says how many microseconds pass before each reading. */
  class Clock {
    var now: TimeVal
    var ticks: seq<nat>

    constructor (now: TimeVal, ticks: seq<nat>)
      requires Normal(now)
      ensures this.now == now && Normal(this.now)
    {
      this.now, this.ticks := now, ticks;
    }

    /** When the next reading falls. */
    ghost function Due(): int
      reads this
    {
      Micros(now) + if ticks == [] then 0 else ticks[0]
    }

    method Read() returns (t: TimeVal)
      requires Normal(now)
      modifies this
      ensures t == now && Normal(t) && Micros(t) == old(Due())
      ensures ticks == if old(ticks) == [] then [] else old(ticks)[1..]
    {
      if ticks != [] {
        var m := Micros(now) + ticks[0];
        assert m == (m / MILLION) * MILLION + m % MILLION;
        now := TimeVal(m / MILLION, m % MILLION);
        ticks := ticks[1..];
      }
      t := now;
    }
  }

  class Program {
    const mr: array<MsgRec>
    const ack: array<byte>
    const timers: Timers
    const clock: Clock
    var cnt: nat
    var msgid: nat
    /** Everything handed to `send` so far. */
    var sent: seq<byte>

    ghost predicate Shape()
      reads this, timers, timers.Repr, clock
    {
      timers.Valid() && mr.Length == MRSZ && ack.Length == ACKSZ && cnt < ACKSZ && Normal(clock.now) &&
      this !in timers.Repr && mr !in timers.Repr && ack !in timers.Repr && clock !in timers.Repr
    }

    ghost function State(): Writer
      reads this, timers, mr, ack
      requires cnt <= ack.Length
    {
      Writer(mr[..], timers.queue, timers.nextId, msgid, ack[..cnt])
    }

    ghost predicate Valid()
      reads this, timers, timers.Repr, mr, ack, clock
    {
      Shape() && Inv(State())
    }

    constructor (now: TimeVal, ticks: seq<nat>)
      requires Normal(now)
      ensures Valid() && fresh(timers) && fresh(timers.Repr) && fresh(mr) && fresh(ack) && fresh(clock)
      ensures State() == Initial() && sent == [] && clock.now == now
    {
      mr := new MsgRec[MRSZ](_ => MsgRec(-1, 0, [], 0));
      ack := new byte[ACKSZ](_ => 0);
      timers := new Timers();
      clock := new Clock(now, ticks);
      cnt, msgid, sent := 0, 0, [];
      new;
      assert State() == Initial();
      InitialInv();
    }

    method GetFreeRec() returns (i: nat)
      ensures i == FreeRec(mr[..])
    {
      i := 0;
      while i < mr.Length && !mr[i].Free()
        invariant i <= mr.Length
        invariant i + FreeRec(mr[i..]) == FreeRec(mr[..])
      {
        i := i + 1;
      }
    }

    method FindMsgRec(mid: nat) returns (i: nat)
      ensures i == FindRec(mr[..], mid)
    {
      i := 0;
      while i < mr.Length && (mr[i].Free() || mr[i].cookie != mid)
        invariant i <= mr.Length
        invariant i + FindRec(mr[i..], mid) == FindRec(mr[..], mid)
      {
        i := i + 1;
      }
    }

    /** `mp->id = timeout( ... )` */
    method Arm(func: Func, i: nat, ms: nat) returns (ghost t: TimeVal)
      requires Shape() && i < mr.Length
      modifies mr, clock, timers.Repr
      ensures Shape() && fresh(timers.Repr - old(timers.Repr))
      ensures t == clock.now && Micros(old(clock.now)) <= Micros(t) == old(clock.Due())
      ensures State() == old(State()).(
                mr := old(mr[..])[i := old(mr[i]).(id := old(timers.nextId))],
                timers := Insert(old(timers.queue), Timer(Deadline(t, ms), func, i, old(timers.nextId))),
                nextId := old(timers.nextId) + 1)
    {
      var now := clock.Read();
      t := now;
      var id := timers.Timeout(func, i, ms, now);
      mr[i] := mr[i].(id := id);
    }

    /** Standard input is readable: one message enters, or the program gives up because no
        record is free. */
    method HandleInput(data: seq<byte>) returns (ok: bool, ghost t: TimeVal)
      requires Shape() && |data| <= BUFSZ && msgid < WORDS
      modifies this`sent, this`msgid, mr, clock, timers.Repr
      ensures Shape() && fresh(timers.Repr - old(timers.Repr))
      ensures Normal(t) && t == clock.now && Micros(old(clock.now)) <= Micros(t)
      ensures ok ==> Micros(t) == old(clock.Due())
      ensures ok <==> Accept(old(State()), data, t).Ok?
      ensures ok ==> State() == Accept(old(State()), data, t).w
      ensures ok ==> sent == old(sent) + Accept(old(State()), data, t).sent
    {
      var i := GetFreeRec();
      if i == mr.Length {
        t := clock.now;
        return false, t;
      }
      mr[i] := MsgRec(4 + |data|, msgid, data, mr[i].id);
      sent := sent + Packet(msgid, data);
      t := Arm(LostAck, i, T1);
      msgid := msgid + 1;
      assert mr[..] == old(mr[..])[i := MsgRec(4 + |data|, old(msgid), data, old(timers.nextId))];
      ok := true;
    }

    /** `lost_ACK`: resend, and wait once more. */
    method LostAckCallback(i: nat) returns (ghost t: TimeVal)
      requires Shape() && i < mr.Length && Ready(State())
      modifies this`sent, mr, clock, timers.Repr
      ensures Shape() && fresh(timers.Repr - old(timers.Repr))
      ensures Normal(t) && t == clock.now && Micros(old(clock.now)) <= Micros(t)
      ensures Micros(t) == old(clock.Due())
      ensures sent == old(sent) + Packet(old(mr[i]).cookie, old(mr[i]).data)
      ensures State() == old(State()).(
                mr := old(mr[..])[i := old(mr[i]).(id := old(timers.nextId))],
                timers := Insert(old(timers.queue), Timer(Deadline(t, T2), Drop, i, old(timers.nextId))),
                nextId := old(timers.nextId) + 1)
    {
      sent := sent + Packet(mr[i].cookie, mr[i].data);
      t := Arm(Drop, i, T2);
    }

    /** `drop`, through `freemsgrec`. */
    method DropCallback(i: nat) returns (ok: bool)
      requires Shape() && i < mr.Length
      modifies mr
      ensures Shape() && ok == !old(mr[i].Free())
      ensures ok ==> mr[..] == FreeMsgRec(old(mr[..]), i)
    {
      if mr[i].Free() {
        return false;
      }
      mr[i] := mr[i].(len := -1);
      ok := true;
    }

    /** One turn of the dispatch loop on a non-empty timer list. */
    method FireHead() returns (ok: bool, ghost t: TimeVal)
      requires Shape() && timers.queue != [] && Ready(State())
      modifies this`sent, mr, clock, timers.Repr
      ensures Shape() && fresh(timers.Repr - old(timers.Repr))
      ensures Normal(t) && t == clock.now && Micros(old(clock.now)) <= Micros(t)
      ensures ok <==> Fire(old(State()), t).Ok?
      ensures ok ==> State() == Fire(old(State()), t).w && sent == old(sent) + Fire(old(State()), t).sent
    {
      timers.HeadHolds();
      assert timers.queue[0] in State().timers;
      match timers.active.func {
        case LostAck =>
          t := LostAckCallback(timers.active.arg);
          ok := true;
        case Drop =>
          t := clock.now;
          ok := DropCallback(timers.active.arg);
      }
      if ok {
        timers.Retire();
      }
    }

    /** Where the dispatch loop stands after the readings `rs`. */
    ghost predicate Dispatched(w: Writer, now: TimeVal, rs: seq<TimeVal>, before: seq<byte>)
      reads this, timers, mr, ack
    {
      cnt <= ack.Length && Readings(now, rs) && |rs| <= DueCount(w.timers, now) &&
      Pass(w, now, rs).Ok? && State() == Pass(w, now, rs).w && sent == before + Pass(w, now, rs).sent
    }

    method Turn(now: TimeVal, ghost w: Writer, ghost rs: seq<TimeVal>, ghost before: seq<byte>) returns (ghost t: TimeVal)
      requires Shape() && Inv(w) && Dispatched(w, now, rs, before) && Micros(now) <= Micros(clock.now)
      requires timers.queue != [] && !Before(now, timers.queue[0].tv)
      modifies this`sent, mr, clock, timers.Repr
      ensures Shape() && fresh(timers.Repr - old(timers.Repr))
      ensures Micros(old(clock.now)) <= Micros(clock.now) && t == clock.now
      ensures Dispatched(w, now, rs + [t], before) && |rs| < DueCount(w.timers, now)
    {
      PassStep(w, now, rs, clock.now);
      var ok;
      ok, t := FireHead();
      PassStep(w, now, rs, t);
      var Ok(v, more) := Pass(w, now, rs);
      Associative(before, more, Fire(v, t).sent);
      assert sent == (before + more) + Fire(v, t).sent;
      assert Pass(w, now, rs + [t]).sent == more + Fire(v, t).sent;
    }

    /** The dispatch loop for one sampled time `now`. It always ends and never gives up. */
    method RunDue(now: TimeVal) returns (ghost rs: seq<TimeVal>)
      requires Shape() && Inv(State()) && Normal(now) && Micros(now) <= Micros(clock.now)
      modifies this`sent, mr, clock, timers.Repr
      ensures Shape() && fresh(timers.Repr - old(timers.Repr))
      ensures Micros(old(clock.now)) <= Micros(clock.now) && Rising(rs, Micros(clock.now))
      ensures Dispatched(old(State()), now, rs, old(sent)) && |rs| == DueCount(old(timers.queue), now)
      ensures Inv(State()) && NoneDue(timers.queue, now)
    {
      rs := [];
      ghost var w := State();
      timers.HeadHolds();
      while timers.active != null && !Before(now, timers.active.tv)
        invariant Shape() && fresh(timers.Repr - old(timers.Repr))
        invariant Micros(old(clock.now)) <= Micros(clock.now) && Rising(rs, Micros(clock.now))
        invariant Dispatched(w, now, rs, old(sent))
        invariant timers.active == null <==> timers.queue == []
        invariant timers.active != null ==> timers.active.tv == timers.queue[0].tv
        decreases DueCount(w.timers, now) - |rs|
      {
        ghost var end := Micros(clock.now);
        ghost var t := Turn(now, w, rs, old(sent));
        RisingMore(rs, end, t);
        rs := rs + [t];
        timers.HeadHolds();
      }
      PassStep(w, now, rs, clock.now);
      PassEnds(w, now, rs);
    }

    /** The rounds made so far since the state was `w`. */
    ghost predicate Selected(w: Writer, samples: seq<Sample>, before: seq<byte>)
      reads this, timers, mr, ack
    {
      cnt <= ack.Length && Complete(w, samples) && Passes(w, samples).Ok? &&
      State() == Passes(w, samples).w && sent == before + Passes(w, samples).sent
    }

    /** One round of `tselect`: sample the clock, dispatch, compute the wait. */
    method Round(ghost w: Writer, ghost samples: seq<Sample>, ghost before: seq<byte>, ghost start: int)
      returns (wait: Option<TimeVal>, ghost sample: Sample)
      requires Shape() && Selected(w, samples, before) && Chronological(start, samples, Micros(clock.now))
      modifies this`sent, mr, clock, timers.Repr
      ensures Shape() && fresh(timers.Repr - old(timers.Repr))
      ensures Micros(old(clock.now)) <= Micros(sample.now) <= Micros(clock.now)
      ensures Micros(sample.now) == old(clock.Due())
      ensures |sample.rs| == DueCount(old(timers.queue), sample.now)
      ensures Selected(w, samples + [sample], before) && Chronological(start, samples + [sample], Micros(clock.now))
      ensures NoneDue(timers.queue, sample.now)
      ensures wait == WaitFor(timers.queue, sample.now)
      ensures wait.None? <==> timers.queue == []
      ensures wait.Some? ==> 0 < Micros(wait.value) == Micros(timers.queue[0].tv) - Micros(sample.now)
    {
      PassesKeepInv(w, samples);
      ghost var mid := State();
      var now := clock.Read();
      assert State() == mid;
      ghost var rs := RunDue(now);
      sample := Sample(now, rs);
      assert (samples + [sample])[..|samples|] == samples;
      LaterEnd(start, samples, Micros(old(clock.now)), Micros(now));
      Associative(before, Passes(w, samples).sent, Pass(mid, now, rs).sent);
      timers.HeadHolds();
      if timers.active == null {
        wait := None;
      } else {
        wait := Some(Wait(timers.active.tv, now));
        assert timers.queue[0] in timers.queue && timers.queue[0] in State().timers;
        WaitExact(timers.queue[0].tv, now);
      }
    }

    /** `tselect`, continuing after the rounds `past`; `answers` says what successive calls of
        `select` return, true for ready descriptors. It ends at the first true, or where the
        answers end. */
    method TSelect(answers: seq<bool>, ghost w: Writer, ghost past: seq<Sample>, ghost before: seq<byte>, ghost start: int)
      returns (ready: bool, ghost samples: seq<Sample>)
      requires Shape() && Selected(w, past, before) && Chronological(start, past, Micros(clock.now))
      modifies this`sent, mr, clock, timers.Repr
      ensures Shape() && fresh(timers.Repr - old(timers.Repr))
      ensures Selected(w, samples, before) && Chronological(start, samples, Micros(clock.now))
      ensures |samples| == |past| + Rounds(answers)
      ensures ready <==> Answered(answers)
    {
      samples, ready := past, false;
      RoundsAnswered(answers);
      var i := 0;
      while i < |answers| && !ready
        invariant Shape() && fresh(timers.Repr - old(timers.Repr))
        invariant Selected(w, samples, before) && Chronological(start, samples, Micros(clock.now))
        invariant i <= |answers| && |samples| == |past| + i && (ready <==> 0 < i && answers[i - 1])
        invariant Rounds(answers) == if ready then i else i + Rounds(answers[i..])
      {
        var wait;
        ghost var sample;
        wait, sample := Round(w, samples, before, start);
        samples := samples + [sample];
        ready := answers[i];
        i := i + 1;
      }
    }

    /** The socket is readable: `b` is what this `recv` delivered. Unless it completes an ACK,
        the main loop turns round without a look at standard input. */
    method HandleAck(b: seq<byte>) returns (ok: bool, goOn: bool)
      requires Shape() && 0 < |b| <= ACKSZ - cnt
      modifies this`cnt, mr, ack, timers.Repr
      ensures Shape() && timers.Repr == old(timers.Repr)
      ensures goOn <==> |old(ack[..cnt]) + b| == ACKSZ && (old(ack[..cnt]) + b)[0] == ACK
      ensures ok <==> Receive(old(State()), b).Ok?
      ensures ok ==> Receive(old(State()), b) == Ok(State(), [])
    {
      Store(ack, cnt, b);
      cnt := cnt + |b|;
      ok, goOn := true, false;
      if ACKSZ <= cnt {
        cnt := 0;
        if ack[0] == ACK {
          goOn := true;
          var i := FindMsgRec(FromHost(ack[1..]));
          if i < mr.Length {
            var found := timers.Untimeout(mr[i].id);
            ok := DropCallback(i);
          }
        }
      }
    }
  }
}
