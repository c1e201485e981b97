/** The round-trip estimator of `rtt.c`, over exact reals. */
module Rtt {
  const RXTMIN := 2.0
  const RXTMAX := 60.0
  const MAXNREXMT: nat := 3

  /** `struct rtt_info` without the time base. */
  datatype Rtt = Rtt(rtt: real, srtt: real, rttvar: real, rto: real, nrexmt: nat)

  /** RTT_RTOCALC */
  function Unclamped(e: Rtt): real {
    e.srtt + 4.0 * e.rttvar
  }

  function MinMax(rto: real): real {
    if rto < RXTMIN then RXTMIN else if RXTMAX < rto then RXTMAX else rto
  }

  /** The value within the limits that is nearest. */
  lemma MinMaxIsNearest(rto: real, other: real)
    requires RXTMIN <= other <= RXTMAX
    ensures RXTMIN <= MinMax(rto) <= RXTMAX && Apart(MinMax(rto), rto) <= Apart(other, rto)
  {
  }

  function Seconds(ms: nat): real {
    ms as real / 1000.0
  }

  function Init(nrexmt: nat): Rtt {
    var e := Rtt(0.0, 0.0, 0.75, 0.0, nrexmt);
    e.(rto := MinMax(Unclamped(e)))
  }

  /** `rtt_stop` with the measured time in seconds. */
  function Stop(e: Rtt, rtt: real): Rtt {
    var delta := rtt - e.srtt;
    var dev := if delta < 0.0 then -delta else delta;
    var v := e.(rtt := rtt, srtt := e.srtt + delta / 8.0, rttvar := e.rttvar + (dev - e.rttvar) / 4.0);
    v.(rto := MinMax(Unclamped(v)))
  }

  function Timeout(e: Rtt): Rtt {
    e.(rto := 2.0 * e.rto, nrexmt := e.nrexmt + 1)
  }

  class RttInfo {
    var rtt: real
    var srtt: real
    var rttvar: real
    var rto: real
    var nrexmt: nat

    function State(): Rtt
      reads this
    {
      Rtt(rtt, srtt, rttvar, rto, nrexmt)
    }

    /** `rtt_init`, which leaves the retransmission count alone. */
    method InitRtt()
      modifies this
      ensures State() == Init(old(nrexmt))
      ensures rto == 3.0
    {
      rtt := 0.0;
      srtt := 0.0;
      rttvar := 0.75;
      rto := MinMax(srtt + 4.0 * rttvar);
    }

    method NewPack()
      modifies this`nrexmt
      ensures State() == old(State()).(nrexmt := 0)
    {
      nrexmt := 0;
    }

    /** `rtt_start`: the RTO rounded to whole seconds. */
    method Start() returns (alarm: int)
      requires 0.0 <= rto
      ensures rto - 0.5 < alarm as real <= rto + 0.5
    {
      alarm := (rto + 0.5).Floor;
    }

    method StopRtt(ms: nat)
      modifies this
      ensures State() == Stop(old(State()), rtt) && 1000.0 * rtt == ms as real
    {
      rtt := Seconds(ms);
      var delta := rtt - srtt;
      srtt := srtt + delta / 8.0;
      if delta < 0.0 {
        delta := -delta;
      }
      rttvar := rttvar + (delta - rttvar) / 4.0;
      rto := MinMax(srtt + 4.0 * rttvar);
    }

    /** `rtt_timeout`: false when it is time to give up on the packet. */
    method TimedOut() returns (goOn: bool)
      modifies this
      ensures State() == Timeout(old(State()))
      ensures goOn <==> nrexmt <= MAXNREXMT
    {
      rto := rto * 2.0;
      nrexmt := nrexmt + 1;
      goOn := nrexmt <= MAXNREXMT;
    }
  }

  // ---- arbitrary samples ----

  /** The estimator after these measurements, latest last. */
  function After(e: Rtt, samples: seq<real>): Rtt {
    if samples == [] then e else Stop(After(e, samples[..|samples| - 1]), samples[|samples| - 1])
  }

  function Max(a: real, b: real): real {
    if a < b then b else a
  }

  /** Whatever is measured in [0, m], the smoothed time stays there, the deviation stays
      within the larger of its initial value and m, and the RTO within its limits. */
  lemma {:induction false} EstimatesStayInRange(nrexmt: nat, samples: seq<real>, m: real)
    requires forall i :: 0 <= i < |samples| ==> 0.0 <= samples[i] <= m
    requires 0.0 <= m
    ensures var e := After(Init(nrexmt), samples);
            0.0 <= e.srtt <= m && 0.0 <= e.rttvar <= Max(0.75, m) && RXTMIN <= e.rto <= RXTMAX
    decreases |samples|
  {
    if samples != [] {
      EstimatesStayInRange(nrexmt, samples[..|samples| - 1], m);
    }
  }

  /** The weighted mean of the measurements: the latest counts for one eighth, each one before
      for seven eighths of what the next one counts. */
  function Mean(samples: seq<real>): real {
    if samples == [] then 0.0 else Slow(samples[0] / 8.0, |samples| - 1) + Mean(samples[1..])
  }

  lemma {:induction false} MeanSnoc(samples: seq<real>, x: real)
    ensures Mean(samples + [x]) == 0.875 * Mean(samples) + x / 8.0
  {
    if samples == [] {
      assert samples + [x] == [x] && [x][1..] == [];
    } else {
      assert (samples + [x])[1..] == samples[1..] + [x];
      MeanSnoc(samples[1..], x);
    }
  }

  function Apart(a: real, b: real): real {
    if a < b then b - a else a - b
  }

  /** The weighted mean of the distances of the measurements, from the `i`-th on, from the mean
      of those before each: the latest counts for a quarter, and so on by three quarters. */
  function Spread(samples: seq<real>, i: nat): real
    requires i <= |samples|
    decreases |samples| - i
  {
    if i == |samples| then 0.0
    else Fast(Apart(samples[i], Mean(samples[..i])) / 4.0, |samples| - 1 - i) + Spread(samples, i + 1)
  }

  lemma {:induction false} SpreadSnoc(samples: seq<real>, x: real, i: nat)
    requires i <= |samples|
    ensures Spread(samples + [x], i) == 0.75 * Spread(samples, i) + Apart(x, Mean(samples)) / 4.0
    decreases |samples| - i
  {
    var all := samples + [x];
    if i == |samples| {
      assert all[..i] == samples && Spread(all, i + 1) == 0.0;
    } else {
      assert all[..i] == samples[..i];
      SpreadSnoc(samples, x, i + 1);
    }
  }

  /** After any measurements the smoothed time is their weighted mean, and the deviation the
      weighted mean of their distances, with the initial value fading. */
  lemma {:induction false} EstimatesAreMeans(nrexmt: nat, samples: seq<real>)
    ensures var e := After(Init(nrexmt), samples);
            e.srtt == Mean(samples) && e.rttvar == Fast(0.75, |samples|) + Spread(samples, 0) && e.nrexmt == nrexmt
    decreases |samples|
  {
    if samples != [] {
      var init, x := samples[..|samples| - 1], samples[|samples| - 1];
      assert samples == init + [x];
      EstimatesAreMeans(nrexmt, init);
      MeanSnoc(init, x);
      SpreadSnoc(init, x, 0);
    }
  }

  // ---- a constant round-trip time ----

  /** a (7/8)^n */
  function Slow(a: real, n: nat): real {
    if n == 0 then a else 0.875 * Slow(a, n - 1)
  }

  /** a (3/4)^n */
  function Fast(a: real, n: nat): real {
    if n == 0 then a else 0.75 * Fast(a, n - 1)
  }

  function Constant(r: real, n: nat): seq<real> {
    seq(n, _ => r)
  }

  lemma ConstantInit(r: real, n: nat)
    requires 0 < n
    ensures Constant(r, n)[..n - 1] == Constant(r, n - 1) && Constant(r, n)[n - 1] == r
  {
  }

  /** The estimates in closed form. */
  lemma {:induction false} ClosedForm(nrexmt: nat, r: real, n: nat)
    requires 0.0 <= r
    ensures var e := After(Init(nrexmt), Constant(r, n));
            e.srtt == r - Slow(r, n) && 0.0 <= Slow(r, n) &&
            e.rttvar == 2.0 * Slow(r, n) + Fast(0.75 - 2.0 * r, n) && e.rto == MinMax(Unclamped(e))
  {
    if n == 0 {
      assert Constant(r, n) == [];
    } else {
      ClosedForm(nrexmt, r, n - 1);
      ConstantInit(r, n);
    }
  }

  lemma {:induction false} FastLinear(r: real, n: nat)
    ensures 4.0 * Fast(0.75 - 2.0 * r, n) == Fast(3.0, n) - 8.0 * Fast(r, n)
    ensures Fast(8.0 * r - 3.0, n) == 8.0 * Fast(r, n) - Fast(3.0, n)
    ensures 0.0 < Fast(3.0, n)
  {
    if 0 < n {
      FastLinear(r, n - 1);
    }
  }

  /** 8 r (3/4)^n <= 7 r (7/8)^n from the first sample on. */
  lemma {:induction false} DeviationDecays(r: real, n: nat)
    requires 0 < n && 0.0 <= r
    ensures 0.0 <= 8.0 * Fast(r, n) <= 7.0 * Slow(r, n)
  {
    if n == 1 {
      assert Fast(r, 1) == 0.75 * Fast(r, 0) && Slow(r, 1) == 0.875 * Slow(r, 0);
    } else {
      DeviationDecays(r, n - 1);
    }
  }

  /** With a constant round-trip time the unclamped RTO follows this formula, and from the
      first sample on the RTO is never below the round-trip time, for exactly the times the
      upper limit admits: no timer expires before its answer. */
  lemma NoSpuriousTimeout(nrexmt: nat, r: real, n: nat)
    requires 0.0 <= r && 0 < n
    ensures var e := After(Init(nrexmt), Constant(r, n));
            Unclamped(e) == r + 7.0 * Slow(r, n) - Fast(8.0 * r - 3.0, n) &&
            (r <= e.rto <==> r <= RXTMAX)
  {
    ClosedForm(nrexmt, r, n);
    DeviationDecays(r, n);
    FastLinear(r, n);
  }

  // ---- timeouts ----

  datatype Event = Sample(rtt: real) | Expired | NewPacket

  function Play(e: Rtt, events: seq<Event>): Rtt {
    if events == [] then e
    else
      var v := Play(e, events[..|events| - 1]);
      match events[|events| - 1]
      case Sample(rtt) => Stop(v, rtt)
      case Expired => Timeout(v)
      case NewPacket => v.(nrexmt := 0)
  }

  function Expiries(events: seq<Event>): nat {
    if events == [] then 0
    else
      match events[|events| - 1]
      case Sample(_) => 0
      case Expired => 1 + Expiries(events[..|events| - 1])
      case NewPacket => Expiries(events[..|events| - 1])
  }

  /** The expiries since the last new packet. */
  function Retries(events: seq<Event>): nat {
    if events == [] then 0
    else
      match events[|events| - 1]
      case Sample(_) => Retries(events[..|events| - 1])
      case Expired => 1 + Retries(events[..|events| - 1])
      case NewPacket => 0
  }

  /** The retransmissions counted are the expiries of the current packet, answers or not; so
      every packet is given up at its fourth expiry. */
  lemma {:induction false} RetriesCounted(events: seq<Event>)
    ensures Play(Init(0), events).nrexmt == Retries(events)
    decreases |events|
  {
    if events != [] {
      RetriesCounted(events[..|events| - 1]);
    }
  }

  /** Between samples every expiry doubles what the last estimates gave, new packet or not. */
  lemma {:induction false} BackoffExact(nrexmt: nat, events: seq<Event>)
    ensures var e := Play(Init(nrexmt), events);
            e.rto == Doubled(MinMax(Unclamped(e)), Expiries(events))
    decreases |events|
  {
    if events != [] {
      BackoffExact(nrexmt, events[..|events| - 1]);
    }
  }

  function Doubled(a: real, n: nat): real {
    if n == 0 then a else 2.0 * Doubled(a, n - 1)
  }

  /** The limits bind the RTO only where it is computed: between samples every expiry doubles
      it, new packet or not, so it lies between 2 and 60 times two to the number of expiries
      since the last sample. */
  lemma {:induction false} BackoffDoubles(nrexmt: nat, events: seq<Event>)
    ensures var e := Play(Init(nrexmt), events);
            Doubled(RXTMIN, Expiries(events)) <= e.rto <= Doubled(RXTMAX, Expiries(events))
    decreases |events|
  {
    if events != [] {
      BackoffDoubles(nrexmt, events[..|events| - 1]);
    }
  }

  /** The upper limit is exceeded exactly by an expiry from above half of it. */
  lemma LimitExceeded(e: Rtt)
    ensures RXTMAX < Timeout(e).rto <==> RXTMAX / 2.0 < e.rto
  {
  }
}
