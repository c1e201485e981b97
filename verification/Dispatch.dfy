/** One pass of the dispatch loop of `tselect`: which timers fire, in which order, and why
    the loop ends although firing timers arm new ones. */
module Dispatch {
  import opened Options
  import opened Bytes
  import opened TimeVals
  import opened TimerList
  import opened WriterModel

  /** The loop unrolled at most |rs| times; `rs` are the clock readings taken meanwhile. */
  function Pass(w: Writer, now: TimeVal, rs: seq<TimeVal>): Result {
    if rs == [] then Ok(w, [])
    else
      match Pass(w, now, rs[..|rs| - 1])
      case Exit => Exit
      case Ok(v, sent) =>
        var t := rs[|rs| - 1];
        if v.timers == [] || Before(now, v.timers[0].tv) then Ok(v, sent)
        else if !Fireable(v, t) then Exit
        else
          match Fire(v, t)
          case Exit => Exit
          case Ok(u, more) => Ok(u, sent + more)
  }

  predicate Fireable(w: Writer, t: TimeVal) {
    Normal(t) &&
    (forall i :: 0 <= i < |w.timers| ==> w.timers[i].arg < |w.mr|) &&
    (forall i :: 0 <= i < |w.mr| ==> w.mr[i].cookie < WORDS && |w.mr[i].data| <= BUFSZ)
  }

  /** The packets resent when the first `n` timers of `w` fire. */
  function Resent(w: Writer, n: nat): seq<byte>
    requires n <= |w.timers| && Ready(w)
  {
    if n == 0 then []
    else
      var t := w.timers[n - 1];
      Resent(w, n - 1) +
      (if t.func == LostAck then Packet(w.mr[t.arg].cookie, w.mr[t.arg].data) else [])
  }

  /** Clock readings taken one after the other, none before `now`. */
  ghost predicate Readings(now: TimeVal, rs: seq<TimeVal>) {
    Normal(now) && forall i :: 0 <= i < |rs| ==> Normal(rs[i]) && Micros(now) <= Micros(rs[i])
  }

  /** After `k` timers fired: the due timers that remain are the original ones in their
      original order, and the records they will act on are untouched. */
  ghost predicate Midway(w: Writer, now: TimeVal, k: nat, v: Writer, sent: seq<byte>) {
    Inv(w) && Inv(v) && k <= DueCount(w.timers, now) &&
    DueCount(v.timers, now) == DueCount(w.timers, now) - k &&
    v.timers[..DueCount(v.timers, now)] == w.timers[k..DueCount(w.timers, now)] &&
    (forall i :: k <= i < DueCount(w.timers, now) ==> v.mr[w.timers[i].arg] == w.mr[w.timers[i].arg]) &&
    sent == Resent(w, k) && v.msgid == w.msgid && v.ack == w.ack
  }

  lemma DueCountTail(q: seq<Timer>, now: TimeVal)
    requires q != [] && !Before(now, q[0].tv)
    ensures DueCount(q, now) == 1 + DueCount(q[1..], now)
    ensures q[..DueCount(q, now)][1..] == q[1..][..DueCount(q[1..], now)]
  {
  }

  /** A timer that is not due does not join the due prefix. */
  lemma {:induction false} DueCountInsert(q: seq<Timer>, t: Timer, now: TimeVal)
    requires Before(now, t.tv)
    ensures DueCount(Insert(q, t), now) == DueCount(q, now)
    ensures Insert(q, t)[..DueCount(q, now)] == q[..DueCount(q, now)]
  {
    if q == [] {
    } else if Before(t.tv, q[0].tv) {
      assert Before(now, q[0].tv);
    } else {
      var r := Insert(q[1..], t);
      DueCountInsert(q[1..], t, now);
      assert Insert(q, t) == [q[0]] + r;
      DueCountCons(q[0], r, now);
      DueCountCons(q[0], q[1..], now);
      assert [q[0]] + q[1..] == q;
    }
  }

  lemma DueCountCons(t: Timer, q: seq<Timer>, now: TimeVal)
    ensures DueCount([t] + q, now) == if Before(now, t.tv) then 0 else 1 + DueCount(q, now)
    ensures ([t] + q)[..DueCount([t] + q, now)] == if Before(now, t.tv) then [] else [t] + q[..DueCount(q, now)]
  {
    assert ([t] + q)[1..] == q;
  }

  /** What one turn does to the due prefix and to the records. */
  lemma FireShrinksDue(v: Writer, now: TimeVal, t: TimeVal)
    requires Inv(v) && Due(v, now, t)
    ensures Fire(v, t).Ok? && Inv(Fire(v, t).w)
    ensures var u := Fire(v, t).w;
            var n := DueCount(u.timers, now);
            DueCount(v.timers, now) == n + 1 &&
            u.timers[..n] == v.timers[..n + 1][1..] &&
            u.msgid == v.msgid && u.ack == v.ack &&
            forall i :: 0 <= i < |v.mr| && i != v.timers[0].arg ==> u.mr[i] == v.mr[i]
  {
    FireKeepsInv(v, now, t);
    DueCountTail(v.timers, now);
    if v.timers[0].func == LostAck {
      FiredIsRetired(v, now, t);
      var tm := Timer(Deadline(t, T2), Drop, v.timers[0].arg, v.nextId);
      DueCountInsert(v.timers[1..], tm, now);
    }
  }

  lemma MidwayHead(w: Writer, now: TimeVal, k: nat, v: Writer, sent: seq<byte>)
    requires Midway(w, now, k, v, sent) && k < DueCount(w.timers, now)
    ensures v.timers != [] && v.timers[0] == w.timers[k] && !Before(now, v.timers[0].tv)
  {
    var n := DueCount(w.timers, now);
    assert v.timers[0] == v.timers[..n - k][0] == w.timers[k..n][0];
  }

  /** The records later due timers act on are not the one the current timer acts on. */
  lemma DueArgsDiffer(w: Writer, k: nat, i: nat)
    requires Inv(w) && k < i < |w.timers|
    ensures w.timers[i].arg != w.timers[k].arg
  {
    assert w.timers[i] in w.timers && w.timers[k] in w.timers;
    assert w.timers[i].id != w.timers[k].id;
  }

  lemma FireKeepsMidway(w: Writer, now: TimeVal, k: nat, v: Writer, sent: seq<byte>, t: TimeVal)
    requires Midway(w, now, k, v, sent) && k < DueCount(w.timers, now)
    requires Normal(now) && Normal(t) && Micros(now) <= Micros(t)
    ensures v.timers != [] && v.timers[0] == w.timers[k] && Due(v, now, t)
    ensures Fire(v, t).Ok? && Midway(w, now, k + 1, Fire(v, t).w, sent + Fire(v, t).sent)
  {
    var n := DueCount(w.timers, now);
    MidwayHead(w, now, k, v, sent);
    FireShrinksDue(v, now, t);
    var u := Fire(v, t).w;
    forall i | k + 1 <= i < n
      ensures u.mr[w.timers[i].arg] == w.mr[w.timers[i].arg]
    {
      DueArgsDiffer(w, k, i);
      assert w.timers[i] in w.timers;
    }
    InvReady(w);
    assert w.timers[k] in w.timers;
    assert u.timers[..n - k - 1] == v.timers[..n - k][1..] == w.timers[k..n][1..] == w.timers[k + 1..n];
    assert sent + Fire(v, t).sent == Resent(w, k + 1);
  }

  lemma TimersAreFireable(v: Writer, t: TimeVal)
    requires Inv(v) && v.timers != [] && Normal(t)
    ensures Fireable(v, t)
  {
    InvReady(v);
    forall i | 0 <= i < |v.timers| ensures v.timers[i].arg < |v.mr| { assert v.timers[i] in v.timers; }
  }

  lemma PassUnrolled(w: Writer, now: TimeVal, rs: seq<TimeVal>, v: Writer, sent: seq<byte>)
    requires rs != [] && Pass(w, now, rs[..|rs| - 1]) == Ok(v, sent)
    requires v.timers != [] && !Before(now, v.timers[0].tv)
    requires Fireable(v, rs[|rs| - 1]) && Fire(v, rs[|rs| - 1]).Ok?
    ensures Pass(w, now, rs) == Ok(Fire(v, rs[|rs| - 1]).w, sent + Fire(v, rs[|rs| - 1]).sent)
  {
  }

  lemma PassGetsOn(w: Writer, now: TimeVal, rs: seq<TimeVal>, v: Writer, sent: seq<byte>)
    requires Readings(now, rs) && 0 < |rs| <= DueCount(w.timers, now)
    requires Pass(w, now, rs[..|rs| - 1]) == Ok(v, sent) && Midway(w, now, |rs| - 1, v, sent)
    ensures Pass(w, now, rs).Ok?
    ensures Midway(w, now, |rs|, Pass(w, now, rs).w, Pass(w, now, rs).sent)
  {
    FireKeepsMidway(w, now, |rs| - 1, v, sent, rs[|rs| - 1]);
    TimersAreFireable(v, rs[|rs| - 1]);
    PassUnrolled(w, now, rs, v, sent);
  }

  /** The pass fires exactly the timers that were due at the sampled time, each once, in
      list order, whatever the clock shows meanwhile: before the k-th turn the head is the
      k-th timer of the original list. It never gives up. */
  lemma {:induction false} PassFiresDuePrefix(w: Writer, now: TimeVal, rs: seq<TimeVal>)
    requires Inv(w) && Readings(now, rs) && |rs| <= DueCount(w.timers, now)
    ensures Pass(w, now, rs).Ok?
    ensures Midway(w, now, |rs|, Pass(w, now, rs).w, Pass(w, now, rs).sent)
    ensures |rs| < DueCount(w.timers, now) ==>
              Pass(w, now, rs).w.timers != [] && Pass(w, now, rs).w.timers[0] == w.timers[|rs|]
    decreases |rs|
  {
    if rs == [] {
      InvReady(w);
    } else {
      PassFiresDuePrefix(w, now, rs[..|rs| - 1]);
      PassGetsOn(w, now, rs, Pass(w, now, rs[..|rs| - 1]).w, Pass(w, now, rs[..|rs| - 1]).sent);
    }
    if |rs| < DueCount(w.timers, now) {
      MidwayHead(w, now, |rs|, Pass(w, now, rs).w, Pass(w, now, rs).sent);
    }
  }

  /** One more turn, seen from the head the loop finds. */
  lemma PassStep(w: Writer, now: TimeVal, rs: seq<TimeVal>, t: TimeVal)
    requires Inv(w) && Readings(now, rs) && |rs| <= DueCount(w.timers, now)
    requires Normal(t) && Micros(now) <= Micros(t)
    ensures Pass(w, now, rs).Ok?
    ensures var v := Pass(w, now, rs).w;
            Ready(v) &&
            if v.timers == [] || Before(now, v.timers[0].tv) then |rs| == DueCount(w.timers, now)
            else
              |rs| < DueCount(w.timers, now) && Fire(v, t).Ok? && Readings(now, rs + [t]) &&
              Pass(w, now, rs + [t]) == Ok(Fire(v, t).w, Pass(w, now, rs).sent + Fire(v, t).sent)
  {
    PassFiresDuePrefix(w, now, rs);
    var v := Pass(w, now, rs).w;
    if v.timers != [] && !Before(now, v.timers[0].tv) {
      assert (rs + [t])[..|rs|] == rs;
      PassFiresDuePrefix(w, now, rs + [t]);
      FireKeepsMidway(w, now, |rs|, v, Pass(w, now, rs).sent, t);
    }
  }

  /** A complete pass leaves no due timer, so the loop ends after as many turns as there
      were due timers; further turns change nothing. */
  lemma {:induction false} PassEnds(w: Writer, now: TimeVal, rs: seq<TimeVal>)
    requires Inv(w) && Readings(now, rs) && DueCount(w.timers, now) <= |rs|
    ensures Pass(w, now, rs) == Pass(w, now, rs[..DueCount(w.timers, now)])
    ensures Pass(w, now, rs).Ok? && Pass(w, now, rs).sent == Resent(w, DueCount(w.timers, now))
    ensures var v := Pass(w, now, rs).w;
            Inv(v) && NoneDue(v.timers, now)
    decreases |rs|
  {
    var n := DueCount(w.timers, now);
    if |rs| == n {
      assert rs[..n] == rs;
      PassFiresDuePrefix(w, now, rs);
      DueArePrefix(Pass(w, now, rs).w.timers, now);
    } else {
      var init := rs[..|rs| - 1];
      PassEnds(w, now, init);
      assert init[..n] == rs[..n];
      var v := Pass(w, now, init).w;
      assert v.timers != [] ==> v.timers[0] in v.timers;
    }
  }

  ghost predicate NoneDue(q: seq<Timer>, now: TimeVal) {
    forall t :: t in q ==> Before(now, t.tv)
  }

  /** What `tselect` lets `select` wait for: the time to the head's deadline, or forever. */
  function WaitFor(timers: seq<Timer>, now: TimeVal): Option<TimeVal> {
    if timers == [] then None else Some(Wait(timers[0].tv, now))
  }

  /** One pass: the sampled time and the clock readings taken while callbacks ran. */
  datatype Sample = Sample(now: TimeVal, rs: seq<TimeVal>)

  /** Several passes one after the other. */
  function Passes(w: Writer, samples: seq<Sample>): Result {
    if samples == [] then Ok(w, [])
    else
      var n := |samples| - 1;
      match Passes(w, samples[..n])
      case Exit => Exit
      case Ok(v, sent) =>
        match Pass(v, samples[n].now, samples[n].rs)
        case Exit => Exit
        case Ok(u, more) => Ok(u, sent + more)
  }

  /** A sound start, and every pass ran on real readings until no timer was due. */
  ghost predicate Complete(w: Writer, samples: seq<Sample>) {
    if samples == [] then Inv(w)
    else
    var n := |samples| - 1;
    Complete(w, samples[..n]) && Passes(w, samples[..n]).Ok? &&
    Readings(samples[n].now, samples[n].rs) &&
    DueCount(Passes(w, samples[..n]).w.timers, samples[n].now) <= |samples[n].rs|
  }

  /** Readings in the order of time, the last not after `end`. */
  ghost predicate Rising(rs: seq<TimeVal>, end: int) {
    (forall i :: 0 <= i < |rs| ==> Micros(rs[i]) <= end) &&
    forall i, j :: 0 <= i < j < |rs| ==> Micros(rs[i]) <= Micros(rs[j])
  }

  lemma RisingMore(rs: seq<TimeVal>, end: int, t: TimeVal)
    requires Rising(rs, end) && end <= Micros(t)
    ensures Rising(rs + [t], Micros(t))
  {
  }

  /** Samples taken one after the other between two moments. */
  ghost predicate Chronological(start: int, samples: seq<Sample>, end: int) {
    if samples == [] then start <= end
    else
      var n := |samples| - 1;
      Chronological(start, samples[..n], Micros(samples[n].now)) && Micros(samples[n].now) <= end && Rising(samples[n].rs, end)
  }

  lemma LaterEnd(start: int, samples: seq<Sample>, end: int, later: int)
    requires Chronological(start, samples, end) && end <= later
    ensures Chronological(start, samples, later)
  {
  }

  /** However often `tselect` goes round, it never gives up, keeps the correspondence, and
      after each round no timer is due. */
  lemma {:induction false} PassesKeepInv(w: Writer, samples: seq<Sample>)
    requires Complete(w, samples)
    ensures Passes(w, samples).Ok? && Inv(Passes(w, samples).w)
    ensures samples != [] ==> NoneDue(Passes(w, samples).w.timers, samples[|samples| - 1].now)
  {
    if samples != [] {
      var n := |samples| - 1;
      PassesKeepInv(w, samples[..n]);
      PassEnds(Passes(w, samples[..n]).w, samples[n].now, samples[n].rs);
    }
  }

  /** How many rounds `tselect` makes when `select` answers like this: up to and including
      the first time descriptors are ready. */
  function Rounds(answers: seq<bool>): (n: nat)
    ensures n <= |answers| && forall i :: 0 <= i < n - 1 ==> !answers[i]
    ensures n < |answers| ==> 0 < n && answers[n - 1]
  {
    if answers == [] then 0 else if answers[0] then 1 else 1 + Rounds(answers[1..])
  }

  /** Whether one of these answers lets `tselect` return. */
  predicate Answered(answers: seq<bool>) {
    exists i :: 0 <= i < |answers| && answers[i]
  }

  lemma RoundsAnswered(answers: seq<bool>)
    ensures Answered(answers) <==> 0 < Rounds(answers) && answers[Rounds(answers) - 1]
  {
  }
}
