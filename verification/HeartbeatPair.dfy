/** Client and server of the heartbeat example together, over two byte channels that keep
    order and delay every byte by at most `d` seconds. */
module HeartbeatPair {
  import opened Bytes
  import opened Heartbeat

  /** A byte in flight and the moment it was sent. */
  datatype Item = Item(b: byte, at: real)

  /** `cEnd` and `sEnd` are the moments at which the pending `select` calls time out;
      `cStart` and `sStart` those at which the programs entered their loops. */
  datatype Pair = Pair(
    now: real, d: real, cStart: real, sStart: real, client: Client, cEnd: real, server: Server, sEnd: real,
    up: seq<Item>, down: seq<Item>)

  datatype Step =
    | Pass(to: real)
    | ClientTimesOut
    | ServerTimesOut
    | ClientReads(n: nat)
    | ServerReads(n: nat)

  function Stamp(bytes: seq<byte>, at: real): (items: seq<Item>)
    ensures |items| == |bytes|
    ensures forall i :: 0 <= i < |items| ==> items[i] == Item(bytes[i], at)
  {
    seq(|bytes|, i requires 0 <= i < |bytes| => Item(bytes[i], at))
  }

  function Contents(items: seq<Item>): (bytes: seq<byte>)
    ensures |bytes| == |items|
    ensures forall i :: 0 <= i < |bytes| ==> bytes[i] == items[i].b
  {
    seq(|items|, i requires 0 <= i < |items| => items[i].b)
  }

  function Rearm(now: real, wait: nat): real {
    now + Seconds(wait)
  }

  /** Both programs run at `now`; one of them may have started up to `d` earlier. Whatever is
      in the message buffers to begin with. */
  ghost predicate Starts(p: Pair) {
    0.0 <= p.d && ClientOk(p.client) && ServerOk(p.server) &&
    p.client.heartbeats == 0 && p.client.cnt == MSGSIZE &&
    p.server.missed == 0 && p.server.cnt == MSGSIZE &&
    p.up == [] && p.down == [] &&
    p.cEnd == Rearm(p.cStart, T1) && p.sEnd == Rearm(p.sStart, T1 + T2) &&
    p.cStart - p.d <= p.sStart <= p.cStart + p.d &&
    p.now == if p.cStart < p.sStart then p.sStart else p.cStart
  }

  /** `select` returns as soon as something is readable or its time is up, and bytes wait at
      most `d`: time passes no further than these moments. */
  ghost predicate Enabled(p: Pair, step: Step) {
    ClientOk(p.client) && ServerOk(p.server) &&
    match step
    case Pass(to) =>
      p.now <= to <= p.cEnd && to <= p.sEnd &&
      (p.up != [] ==> to <= p.up[0].at + p.d) && (p.down != [] ==> to <= p.down[0].at + p.d)
    case ClientTimesOut => p.now == p.cEnd && ClientTimeout(p.client).Go?
    case ServerTimesOut => p.now == p.sEnd && ServerTimeout(p.server).Go?
    case ClientReads(n) => 0 < n <= p.client.cnt && n <= |p.down|
    case ServerReads(n) => 0 < n <= p.server.cnt && n <= |p.up| && ServerData(p.server, Contents(p.up[..n])).Go?
  }

  function Next(p: Pair, step: Step): Pair
    requires Enabled(p, step)
  {
    match step
    case Pass(to) => p.(now := to)
    case ClientTimesOut =>
      var r := ClientTimeout(p.client);
      p.(client := r.next, cEnd := Rearm(p.now, r.next.wait), up := p.up + Stamp(r.sent, p.now))
    case ServerTimesOut =>
      var r := ServerTimeout(p.server);
      p.(server := r.next, sEnd := Rearm(p.now, r.next.wait))
    case ClientReads(n) =>
      var c := ClientData(p.client, Contents(p.down[..n]));
      p.(client := c, cEnd := Rearm(p.now, c.wait), down := p.down[n..])
    case ServerReads(n) =>
      var r := ServerData(p.server, Contents(p.up[..n]));
      p.(server := r.next, sEnd := Rearm(p.now, r.next.wait), up := p.up[n..],
         down := p.down + Stamp(r.sent, p.now))
  }

  // ---- the three situations of an undisturbed connection ----

  ghost predicate AllSentAt(items: seq<Item>, at: real) {
    forall i :: 0 <= i < |items| ==> items[i].at == at
  }

  /** The message being read at the server, received and in flight together. */
  function Message(p: Pair): seq<byte>
    requires |p.server.msg| == MSGSIZE && p.server.cnt <= MSGSIZE
  {
    p.server.msg[..MSGSIZE - p.server.cnt] + Contents(p.up)
  }

  /** Nothing in flight; the client will ask before the server worries. */
  ghost predicate Quiet(p: Pair) {
    p.up == [] && p.down == [] && p.client.heartbeats == 0 &&
    p.client.cnt == MSGSIZE && p.server.cnt == MSGSIZE &&
    p.now <= p.cEnd && p.cEnd + p.d < p.sEnd
  }

  /** One heartbeat, sent at `h`, is on its way. */
  ghost predicate Asking(p: Pair) {
    p.up != [] && p.down == [] && p.client.heartbeats == 1 && p.client.cnt == MSGSIZE &&
    |p.up| == p.server.cnt <= MSGSIZE == |p.server.msg| && FromNet(Message(p)[..4]) == MSG_HEARTBEAT &&
    var h := p.up[0].at;
    AllSentAt(p.up, h) && h <= p.now <= h + p.d && p.cEnd == h + Seconds(T2) && h + p.d < p.sEnd
  }

  /** Its echo, sent at `r`, is on its way; part of it may have been read. */
  ghost predicate Answering(p: Pair) {
    p.up == [] && p.down != [] && p.server.cnt == MSGSIZE && |p.down| == p.client.cnt &&
    var r := p.down[0].at;
    AllSentAt(p.down, r) && r <= p.now <= r + p.d && p.sEnd == r + Seconds(T1 + T2) && r + p.d < p.cEnd &&
    (p.client.heartbeats == 1 ==> p.client.cnt == MSGSIZE) &&
    (p.client.heartbeats == 0 ==> p.client.cnt < MSGSIZE) && p.client.heartbeats <= 1
  }

  ghost predicate Healthy(p: Pair) {
    ClientOk(p.client) && ServerOk(p.server) && p.server.missed == 0 &&
    0.0 <= p.d && 2.0 * p.d < Seconds(T2) &&
    (Quiet(p) || Asking(p) || Answering(p))
  }

  ghost predicate Run(states: seq<Pair>, steps: seq<Step>) {
    |states| == |steps| + 1 && Starts(states[0]) &&
    forall i :: 0 <= i < |steps| ==> Enabled(states[i], steps[i]) && states[i + 1] == Next(states[i], steps[i])
  }

  lemma StartHealthy(p: Pair)
    requires Starts(p) && 2.0 * p.d < Seconds(T2)
    ensures Healthy(p)
  {
  }

  lemma QuietStep(p: Pair, step: Step)
    requires Healthy(p) && Quiet(p) && Enabled(p, step)
    ensures Healthy(Next(p, step))
  {
    if step.ClientTimesOut? {
      var v := Next(p, step);
      assert v.up[0].at == p.now;
      assert Message(v)[..4] == Net(MSG_HEARTBEAT);
      NetRoundTrip(MSG_HEARTBEAT);
    }
  }

  lemma AskingStep(p: Pair, step: Step)
    requires Healthy(p) && Asking(p) && Enabled(p, step)
    ensures Healthy(Next(p, step))
  {
    if step.ServerReads? {
      if step.n < |p.up| {
        ServerReadsPart(p, step.n);
      } else {
        ServerReadsAll(p, step.n);
      }
    }
  }

  lemma ServerReadsPart(p: Pair, n: nat)
    requires Healthy(p) && Asking(p) && Enabled(p, ServerReads(n)) && n < |p.up|
    ensures Healthy(Next(p, ServerReads(n)))
  {
    var v := Next(p, ServerReads(n));
    assert v.up[0] == p.up[n];
    assert Message(v) == Message(p);
  }

  lemma ServerReadsAll(p: Pair, n: nat)
    requires Healthy(p) && Asking(p) && Enabled(p, ServerReads(n)) && n == |p.up|
    ensures Healthy(Next(p, ServerReads(n)))
  {
    var v := Next(p, ServerReads(n));
    var msg := Fill(p.server.msg, p.server.cnt, Contents(p.up[..n]));
    assert msg == Message(p);
    assert v.up == [] && v.down == Stamp(msg, p.now) && v.down[0].at == p.now;
  }

  lemma AnsweringStep(p: Pair, step: Step)
    requires Healthy(p) && Answering(p) && Enabled(p, step)
    ensures Healthy(Next(p, step))
  {
    if step.ClientReads? && step.n < |p.down| {
      assert Next(p, step).down[0] == p.down[step.n];
    }
  }

  lemma {:induction false} RunHealthy(states: seq<Pair>, steps: seq<Step>, i: nat)
    requires Run(states, steps) && i < |states| && 2.0 * states[0].d < Seconds(T2)
    ensures Healthy(states[i])
  {
    if i == 0 {
      StartHealthy(states[0]);
    } else {
      RunHealthy(states, steps, i - 1);
      var p, step := states[i - 1], steps[i - 1];
      if Quiet(p) {
        QuietStep(p, step);
      } else if Asking(p) {
        AskingStep(p, step);
      } else {
        AnsweringStep(p, step);
      }
    }
  }

  /** No false alarm: as long as start-up skew and delay are at most `d` with 2d < T2, in
      every run the client has at most one heartbeat outstanding and the server misses none. */
  lemma NoFalseAlarm(states: seq<Pair>, steps: seq<Step>, i: nat)
    requires Run(states, steps) && i < |states| && 2.0 * states[0].d < Seconds(T2)
    ensures states[i].client.heartbeats <= 1 && states[i].server.missed == 0
  {
    RunHealthy(states, steps, i);
  }

  // ---- the bound is sharp ----

  function Beat(): (m: seq<byte>)
    ensures |m| == MSGSIZE
  {
    Net(MSG_HEARTBEAT) + seq(MSGSIZE - 4, _ => 0)
  }

  ghost function Launch(d: real): Pair {
    Pair(0.0, d, 0.0, 0.0, Client(0, MSGSIZE, T1, Beat()), Seconds(T1),
         Server(0, MSGSIZE, T1 + T2, Beat()), Seconds(T1 + T2), [], [])
  }

  lemma BeatIsHeartbeat()
    ensures Beat()[..4] == Net(MSG_HEARTBEAT) && FromNet(Beat()[..4]) == MSG_HEARTBEAT
    ensures Net(MSG_HEARTBEAT) + Beat()[4..] == Beat()
  {
    assert Beat()[..4] == Net(MSG_HEARTBEAT);
    NetRoundTrip(MSG_HEARTBEAT);
    assert Beat()[4..] == seq(MSGSIZE - 4, _ => 0);
  }

  lemma BeatAnswered(p: Pair)
    requires ClientOk(p.client) && ServerOk(p.server) && p.server.cnt == MSGSIZE
    requires p.up == Stamp(Beat(), 60.0) && p.down == []
    ensures Enabled(p, ServerReads(MSGSIZE))
    ensures var v := Next(p, ServerReads(MSGSIZE));
            v.up == [] && v.down == Stamp(Beat(), p.now) && v.client == p.client && v.cEnd == p.cEnd &&
            v.now == p.now && v.d == p.d && ServerOk(v.server) && v.sEnd == Rearm(p.now, T1 + T2)
  {
    BeatIsHeartbeat();
    assert p.up[..MSGSIZE] == p.up;
    assert Contents(p.up) == Beat();
    assert Fill(p.server.msg, MSGSIZE, Beat()) == Beat();
  }

  lemma BeatSent(p: Pair)
    requires ClientOk(p.client) && ServerOk(p.server) && p.client.msg == Beat() && p.client.heartbeats <= 2
    requires p.now == p.cEnd
    ensures Enabled(p, ClientTimesOut)
    ensures var v := Next(p, ClientTimesOut);
            v == p.(client := p.client.(heartbeats := p.client.heartbeats + 1, wait := T2),
                    cEnd := Rearm(p.now, T2), up := p.up + Stamp(Beat(), p.now)) && ClientOk(v.client)
  {
    BeatIsHeartbeat();
  }

  ghost predicate Moves(p: Pair, step: Step, v: Pair) {
    Enabled(p, step) && v == Next(p, step)
  }

  lemma SlowAsk(d: real) returns (p0: Pair, p1: Pair, p2: Pair)
    requires Seconds(T2) <= 2.0 * d
    ensures Starts(p0) && p0.d == d
    ensures Moves(p0, Pass(60.0), p1) && Moves(p1, ClientTimesOut, p2)
    ensures p2.d == d && p2.now == 60.0 && p2.up == Stamp(Beat(), 60.0) && p2.down == []
    ensures ClientOk(p2.client) && p2.client.heartbeats == 1 && p2.client.msg == Beat() && p2.cEnd == 70.0
    ensures ServerOk(p2.server) && p2.server.cnt == MSGSIZE && p2.sEnd == 70.0
  {
    p0 := Launch(d);
    p1 := Next(p0, Pass(60.0));
    BeatSent(p1);
    p2 := Next(p1, ClientTimesOut);
    assert p2.up == Stamp(Beat(), 60.0);
  }

  lemma SlowAnswer(p2: Pair) returns (p3: Pair, p4: Pair, p5: Pair, p6: Pair)
    requires Seconds(T2) <= 2.0 * p2.d
    requires p2.now == 60.0 && p2.up == Stamp(Beat(), 60.0) && p2.down == []
    requires ClientOk(p2.client) && p2.client.heartbeats == 1 && p2.client.msg == Beat() && p2.cEnd == 70.0
    requires ServerOk(p2.server) && p2.server.cnt == MSGSIZE && p2.sEnd == 70.0
    ensures Moves(p2, Pass(65.0), p3) && Moves(p3, ServerReads(MSGSIZE), p4)
    ensures Moves(p4, Pass(70.0), p5) && Moves(p5, ClientTimesOut, p6)
    ensures p6.client.heartbeats == 2
  {
    p3 := Next(p2, Pass(65.0));
    BeatAnswered(p3);
    p4 := Next(p3, ServerReads(MSGSIZE));
    assert p4.down[0].at == 65.0;
    p5 := Next(p4, Pass(70.0));
    BeatSent(p5);
    p6 := Next(p5, ClientTimesOut);
  }

  /** With 2d >= T2 there is a false alarm: both programs work, every byte arrives within
      `d`, and yet the client comes to have two heartbeats outstanding. */
  lemma SlowRun(d: real) returns (states: seq<Pair>, steps: seq<Step>)
    requires Seconds(T2) <= 2.0 * d
    ensures Run(states, steps) && states[0].d == d
    ensures states[|steps|].client.heartbeats == 2
  {
    var p0, p1, p2 := SlowAsk(d);
    var p3, p4, p5, p6 := SlowAnswer(p2);
    states, steps := [p0], [];
    states, steps := Onward(states, steps, Pass(60.0), p1);
    states, steps := Onward(states, steps, ClientTimesOut, p2);
    states, steps := Onward(states, steps, Pass(65.0), p3);
    states, steps := Onward(states, steps, ServerReads(MSGSIZE), p4);
    states, steps := Onward(states, steps, Pass(70.0), p5);
    states, steps := Onward(states, steps, ClientTimesOut, p6);
  }

  lemma Onward(states: seq<Pair>, steps: seq<Step>, step: Step, p: Pair) returns (states': seq<Pair>, steps': seq<Step>)
    requires Run(states, steps) && Moves(states[|steps|], step, p)
    ensures Run(states', steps') && |steps'| == |steps| + 1 && states'[|steps'|] == p && states'[0] == states[0]
  {
    states', steps' := states + [p], steps + [step];
  }

  /** Undisturbed operation is guaranteed for exactly the delays with 2d < T2. */
  lemma DelayBoundIsSharp(d: real)
    requires 0.0 <= d
    ensures 2.0 * d < Seconds(T2) <==>
            forall states: seq<Pair>, steps: seq<Step>, i: nat :: Run(states, steps) && states[0].d == d && 0 <= i < |states| ==>
              states[i].client.heartbeats <= 1 && states[i].server.missed == 0
  {
    if 2.0 * d < Seconds(T2) {
      forall states: seq<Pair>, steps: seq<Step>, i: nat | Run(states, steps) && states[0].d == d && 0 <= i < |states|
        ensures states[i].client.heartbeats <= 1 && states[i].server.missed == 0
      {
        NoFalseAlarm(states, steps, i);
      }
    } else {
      var states, steps := SlowRun(d);
      assert states[|steps|].client.heartbeats == 2;
    }
  }
}
