/** The heartbeat programs `hb_client.c` and `hb_server.c`, each against an arbitrary
    network: what every event does to their variables, and exactly when they give up. */
module Heartbeat {
  import opened Bytes
  import opened Options

  const MSG_TYPE1: nat := 1
  const MSG_TYPE2: nat := 2
  const MSG_HEARTBEAT: nat := 3
  const MSGSIZE: nat := 2004
  const T1: nat := 60
  const T2: nat := 10

  /** The client's variables: heartbeats since something was heard, bytes missing from the
      message being read, the wait for the next `select`, the message buffer. */
  datatype Client = Client(heartbeats: nat, cnt: nat, wait: nat, msg: seq<byte>)

  datatype Server = Server(missed: nat, cnt: nat, wait: nat, msg: seq<byte>)

  datatype Reaction<S> = Go(next: S, sent: seq<byte>) | Dead | BadType

  ghost predicate ClientOk(c: Client) {
    c.heartbeats <= 3 && 0 < c.cnt <= MSGSIZE && |c.msg| == MSGSIZE &&
    c.wait == if c.heartbeats == 0 then T1 else T2
  }

  ghost predicate ServerOk(s: Server) {
    s.missed <= 3 && 0 < s.cnt <= MSGSIZE && |s.msg| == MSGSIZE &&
    s.wait == if s.missed == 0 then T1 + T2 else T2
  }

  /** Bytes received into the part of the message still missing. */
  function Fill(msg: seq<byte>, cnt: nat, b: seq<byte>): (m: seq<byte>)
    requires |msg| == MSGSIZE && |b| <= cnt <= MSGSIZE
    ensures |m| == MSGSIZE
  {
    msg[..MSGSIZE - cnt] + b + msg[MSGSIZE - cnt + |b|..]
  }

  function Missing(cnt: nat, n: nat): nat
    requires n <= cnt
  {
    if n < cnt then cnt - n else MSGSIZE
  }

  function ClientTimeout(c: Client): Reaction<Client>
    requires |c.msg| == MSGSIZE
  {
    if 3 < c.heartbeats + 1 then Dead
    else
      var msg := Net(MSG_HEARTBEAT) + c.msg[4..];
      Go(Client(c.heartbeats + 1, c.cnt, T2, msg), msg)
  }

  function ClientData(c: Client, b: seq<byte>): Client
    requires |c.msg| == MSGSIZE && |b| <= c.cnt <= MSGSIZE
  {
    Client(0, Missing(c.cnt, |b|), T1, Fill(c.msg, c.cnt, b))
  }

  function ServerTimeout(s: Server): Reaction<Server> {
    if 3 < s.missed + 1 then Dead
    else Go(s.(missed := s.missed + 1, wait := T2), [])
  }

  function ServerData(s: Server, b: seq<byte>): Reaction<Server>
    requires |s.msg| == MSGSIZE && |b| <= s.cnt <= MSGSIZE
  {
    var msg := Fill(s.msg, s.cnt, b);
    var next := Server(0, Missing(s.cnt, |b|), T1 + T2, msg);
    var kind := FromNet(msg[..4]);
    if |b| < s.cnt || kind == MSG_TYPE1 || kind == MSG_TYPE2 then Go(next, [])
    else if kind == MSG_HEARTBEAT then Go(next, msg)
    else BadType
  }

  class HbClient {
    const msg: array<byte>
    var heartbeats: nat
    var cnt: nat
    var wait: nat

    function State(): Client
      reads this, msg
    {
      Client(heartbeats, cnt, wait, msg[..])
    }

    constructor ()
      ensures State() == Client(0, MSGSIZE, T1, seq(MSGSIZE, _ => 0)) && fresh(msg)
      ensures ClientOk(State())
    {
      msg := new byte[MSGSIZE](_ => 0);
      heartbeats, cnt, wait := 0, MSGSIZE, T1;
      new;
      assert msg[..] == seq(MSGSIZE, _ => 0);
    }

    /** `select` timed out. */
    method TimedOut() returns (alive: bool, sent: seq<byte>)
      requires ClientOk(State())
      modifies this, msg
      ensures alive <==> ClientTimeout(old(State())).Go?
      ensures alive ==> ClientTimeout(old(State())) == Go(State(), sent) && ClientOk(State())
    {
      heartbeats := heartbeats + 1;
      if 3 < heartbeats {
        return false, [];
      }
      Store(msg, 0, Net(MSG_HEARTBEAT));
      assert msg[..] == Net(MSG_HEARTBEAT) + old(msg[4..]);
      wait := T2;
      return true, msg[..];
    }

    /** `recv` delivered `b`. */
    method Received(b: seq<byte>)
      requires ClientOk(State()) && 0 < |b| <= cnt
      modifies this, msg
      ensures State() == ClientData(old(State()), b) && ClientOk(State())
    {
      Store(msg, MSGSIZE - cnt, b);
      heartbeats := 0;
      wait := T1;
      cnt := cnt - |b|;
      if cnt == 0 {
        cnt := MSGSIZE;
      }
    }
  }

  class HbServer {
    const msg: array<byte>
    var missed: nat
    var cnt: nat
    var wait: nat

    function State(): Server
      reads this, msg
    {
      Server(missed, cnt, wait, msg[..])
    }

    constructor ()
      ensures State() == Server(0, MSGSIZE, T1 + T2, seq(MSGSIZE, _ => 0)) && fresh(msg)
      ensures ServerOk(State())
    {
      msg := new byte[MSGSIZE](_ => 0);
      missed, cnt, wait := 0, MSGSIZE, T1 + T2;
      new;
      assert msg[..] == seq(MSGSIZE, _ => 0);
    }

    method TimedOut() returns (alive: bool)
      requires ServerOk(State())
      modifies this
      ensures alive <==> ServerTimeout(old(State())).Go?
      ensures alive ==> ServerTimeout(old(State())) == Go(State(), []) && ServerOk(State())
    {
      missed := missed + 1;
      if 3 < missed {
        return false;
      }
      wait := T2;
      alive := true;
    }

    method Received(b: seq<byte>) returns (known: bool, sent: seq<byte>)
      requires ServerOk(State()) && 0 < |b| <= cnt
      modifies this, msg
      ensures known <==> ServerData(old(State()), b).Go?
      ensures known ==> ServerData(old(State()), b) == Go(State(), sent) && ServerOk(State())
    {
      Store(msg, MSGSIZE - cnt, b);
      missed := 0;
      wait := T1 + T2;
      cnt := cnt - |b|;
      known, sent := true, [];
      if cnt == 0 {
        cnt := MSGSIZE;
        var kind := FromNet(msg[..4]);
        if kind == MSG_HEARTBEAT {
          sent := msg[..];
        } else if kind != MSG_TYPE1 && kind != MSG_TYPE2 {
          known := false;
        }
      }
    }
  }

  // ---- exactly when a side gives up ----

  /** Bytes that become readable at a moment; how many one `recv` takes is up to the loop. */
  datatype Arrival = Arrival(at: real, bytes: seq<byte>)

  ghost predicate Ordered(start: real, arrivals: seq<Arrival>) {
    (forall i :: 0 <= i < |arrivals| ==> arrivals[i].bytes != [] && start <= arrivals[i].at) &&
    forall i, j :: 0 <= i < j < |arrivals| ==> arrivals[i].at <= arrivals[j].at
  }

  /** How many arrivals come before the first silence as long as `patience`. */
  ghost function Heard(last: real, arrivals: seq<Arrival>, patience: real): (k: nat)
    ensures k <= |arrivals|
    decreases |arrivals|
  {
    if arrivals == [] || last + patience <= arrivals[0].at then 0
    else 1 + Heard(arrivals[0].at, arrivals[1..], patience)
  }

  /** When the last of the first `k` arrivals came. */
  ghost function LastHeard(start: real, arrivals: seq<Arrival>, k: nat): real
    requires k <= |arrivals|
  {
    if k == 0 then start else arrivals[k - 1].at
  }

  function Seconds(n: nat): real {
    n as real
  }

  /** Both programs wait `first` seconds after hearing something, then T2 seconds a time, and
      give up the fourth time. */
  function Elapsed(first: nat, timeouts: nat): real {
    if timeouts == 0 then 0.0 else Seconds(first + (timeouts - 1) * T2)
  }

  function Patience(first: nat): real {
    Elapsed(first, 4)
  }

  /** Where the loop stands: `i` arrivals heard and so many timeouts since. */
  ghost predicate OnTime(first: nat, start: real, arrivals: seq<Arrival>, i: nat, now: real, timeouts: nat) {
    Ordered(start, arrivals) && i <= |arrivals| && timeouts <= 3 &&
    now == LastHeard(start, arrivals, i) + Elapsed(first, timeouts) &&
    (i < |arrivals| ==> now <= arrivals[i].at) &&
    i + Heard(LastHeard(start, arrivals, i), arrivals[i..], Patience(first)) == Heard(start, arrivals, Patience(first))
  }

  predicate InTime(arrivals: seq<Arrival>, i: nat, now: real, wait: nat) {
    i < |arrivals| && arrivals[i].at < now + Seconds(wait)
  }

  lemma TimeOfArrival(first: nat, start: real, arrivals: seq<Arrival>, i: nat, now: real, timeouts: nat)
    requires OnTime(first, start, arrivals, i, now, timeouts)
    requires InTime(arrivals, i, now, if timeouts == 0 then first else T2)
    ensures OnTime(first, start, arrivals, i + 1, arrivals[i].at, 0)
    ensures i < Heard(start, arrivals, Patience(first))
  {
    assert arrivals[i..][1..] == arrivals[i + 1..];
  }

  lemma TimeOfTimeout(first: nat, start: real, arrivals: seq<Arrival>, i: nat, now: real, timeouts: nat)
    requires OnTime(first, start, arrivals, i, now, timeouts)
    requires !InTime(arrivals, i, now, if timeouts == 0 then first else T2)
    ensures var later := now + Seconds(if timeouts == 0 then first else T2);
            if timeouts < 3 then OnTime(first, start, arrivals, i, later, timeouts + 1)
            else i == Heard(start, arrivals, Patience(first)) && later == LastHeard(start, arrivals, i) + Patience(first)
  {
  }

  /** The client's timeouts, from the `n`-th on, after hearing something at `last`, as long as
      they come no later than `until`; the fourth is the end. */
  function TimesOut(last: real, until: real, n: nat): seq<real>
    decreases 4 - n
  {
    if 3 < n || until < last + Elapsed(T1, n) then [] else [last + Elapsed(T1, n)] + TimesOut(last, until, n + 1)
  }

  /** Till when the client waits after the `i`-th arrival when it hears `k` of them. */
  ghost function Until(start: real, arrivals: seq<Arrival>, i: nat, k: nat): real
    requires i <= k <= |arrivals|
  {
    if i < k then arrivals[i].at else LastHeard(start, arrivals, i) + Patience(T1)
  }

  /** When it beats from the `i`-th arrival on. */
  ghost function BeatTimes(start: real, arrivals: seq<Arrival>, i: nat, k: nat): seq<real>
    requires i <= k <= |arrivals|
    decreases k - i
  {
    TimesOut(LastHeard(start, arrivals, i), Until(start, arrivals, i, k), 1) +
    if i < k then BeatTimes(start, arrivals, i + 1, k) else []
  }

  /** The timeouts after the `i`-th arrival, from the `n`-th on. */
  ghost function Since(start: real, arrivals: seq<Arrival>, i: nat, n: nat): seq<real>
    requires i <= Heard(start, arrivals, Patience(T1))
  {
    TimesOut(LastHeard(start, arrivals, i), Until(start, arrivals, i, Heard(start, arrivals, Patience(T1))), n)
  }

  /** The client has beaten at `times` since the `i`-th arrival. */
  ghost predicate Beating(start: real, arrivals: seq<Arrival>, i: nat, now: real, n: nat, times: seq<real>) {
    OnTime(T1, start, arrivals, i, now, n) && i <= Heard(start, arrivals, Patience(T1)) &&
    times + Since(start, arrivals, i, n + 1) == Since(start, arrivals, i, 1)
  }

  ghost predicate Beaten(start: real, arrivals: seq<Arrival>, i: nat, times: seq<real>) {
    i <= Heard(start, arrivals, Patience(T1)) && times == Since(start, arrivals, i, 1)
  }

  lemma BeatingBegins(start: real, arrivals: seq<Arrival>, i: nat, now: real)
    requires OnTime(T1, start, arrivals, i, now, 0)
    ensures Beating(start, arrivals, i, now, 0, [])
  {
    assert [] + Since(start, arrivals, i, 1) == Since(start, arrivals, i, 1);
  }

  lemma BeatingOnTimeout(start: real, arrivals: seq<Arrival>, i: nat, now: real, n: nat, times: seq<real>)
    requires Beating(start, arrivals, i, now, n, times)
    requires !InTime(arrivals, i, now, if n == 0 then T1 else T2)
    ensures var later := now + Seconds(if n == 0 then T1 else T2);
            if n < 3 then Beating(start, arrivals, i, later, n + 1, times + [later])
            else Beaten(start, arrivals, i, times) && i == Heard(start, arrivals, Patience(T1)) &&
                 later == LastHeard(start, arrivals, i) + Patience(T1)
  {
    TimeOfTimeout(T1, start, arrivals, i, now, n);
    if n < 3 {
      var later := now + Seconds(if n == 0 then T1 else T2);
      assert Since(start, arrivals, i, n + 1) == [later] + Since(start, arrivals, i, n + 2);
      Associative(times, [later], Since(start, arrivals, i, n + 2));
    } else {
      assert times + [] == times;
    }
  }

  lemma BeatingOnArrival(start: real, arrivals: seq<Arrival>, i: nat, now: real, n: nat, times: seq<real>)
    requires Beating(start, arrivals, i, now, n, times)
    requires InTime(arrivals, i, now, if n == 0 then T1 else T2)
    ensures Beaten(start, arrivals, i, times) && i < Heard(start, arrivals, Patience(T1))
    ensures OnTime(T1, start, arrivals, i + 1, arrivals[i].at, 0)
  {
    TimeOfArrival(T1, start, arrivals, i, now, n);
    assert times + [] == times;
  }

  // ---- what the client sends and reads ----

  /** The message buffer, with part of a message at its front, and how much is missing. */
  datatype Assembly = Assembly(msg: seq<byte>, cnt: nat) {
    function Part(): seq<byte>
      requires Sized(this)
    {
      msg[..MSGSIZE - cnt]
    }
  }

  predicate Sized(a: Assembly) {
    |a.msg| == MSGSIZE && 0 < a.cnt <= MSGSIZE
  }

  function Buffered(c: Client): Assembly {
    Assembly(c.msg, c.cnt)
  }

  /** Bytes that arrive, as much at a time as is missing of a message: what is in the buffer
      afterwards, and the messages completed. */
  function Absorb(a: Assembly, bytes: seq<byte>): (r: (Assembly, seq<seq<byte>>))
    requires Sized(a)
    ensures Sized(r.0)
    decreases |bytes|
  {
    if bytes == [] then (a, [])
    else
      var n := Min(a.cnt, |bytes|);
      var msg := Fill(a.msg, a.cnt, bytes[..n]);
      var (end, more) := Absorb(Assembly(msg, Missing(a.cnt, n)), bytes[n..]);
      (end, (if n == a.cnt then [msg] else []) + more)
  }

  /** A heartbeat goes out from the same buffer, whatever of a message is in it. */
  function Overwritten(a: Assembly): (b: Assembly)
    requires Sized(a)
    ensures Sized(b)
  {
    a.(msg := Net(MSG_HEARTBEAT) + a.msg[4..])
  }

  function Copies(msg: seq<byte>, n: nat): seq<seq<byte>> {
    seq(n, _ => msg)
  }

  /** What the client sends and what it reads from the `i`-th arrival on: the heartbeats of the
      silence before it, the messages it completes, and so on. */
  ghost function Talk(a: Assembly, start: real, arrivals: seq<Arrival>, i: nat, k: nat): (seq<seq<byte>>, seq<seq<byte>>)
    requires Sized(a) && i <= k <= |arrivals|
    decreases k - i
  {
    var beats := TimesOut(LastHeard(start, arrivals, i), Until(start, arrivals, i, k), 1);
    var b := if beats == [] then a else Overwritten(a);
    if i == k then (Copies(b.msg, |beats|), [])
    else
      var (c, got) := Absorb(b, arrivals[i].bytes);
      var (sent, read) := Talk(c, start, arrivals, i + 1, k);
      (Copies(b.msg, |beats|) + sent, got + read)
  }

  // ---- the client's loop ----

  /** What a timeout does. */
  method Beat(c: HbClient, sent: seq<seq<byte>>) returns (alive: bool, msgs: seq<seq<byte>>)
    requires ClientOk(c.State())
    modifies c, c.msg
    ensures alive <==> old(c.heartbeats) < 3
    ensures alive ==> ClientOk(c.State()) && c.heartbeats == old(c.heartbeats) + 1
    ensures alive ==> Buffered(c.State()) == Overwritten(old(Buffered(c.State())))
    ensures msgs == if alive then sent + [Overwritten(old(Buffered(c.State()))).msg] else sent
  {
    var msg;
    alive, msg := c.TimedOut();
    msgs := if alive then sent + [msg] else sent;
  }

  /** The buffer after `n` heartbeats, and these. */
  ghost predicate BeatOut(a: Assembly, n: nat, b: Assembly, msgs: seq<seq<byte>>)
    requires Sized(a)
  {
    b == (if n == 0 then a else Overwritten(a)) && msgs == Copies(b.msg, n)
  }

  lemma BeatOnceMore(a: Assembly, n: nat, b: Assembly, msgs: seq<seq<byte>>)
    requires Sized(a) && BeatOut(a, n, b, msgs)
    ensures BeatOut(a, n + 1, Overwritten(b), msgs + [Overwritten(b).msg])
  {
    assert Overwritten(b) == Overwritten(a);
    assert msgs + [Overwritten(b).msg] == Copies(Overwritten(b).msg, n + 1);
  }

  /** Silence since the `i`-th arrival, with heartbeats at `times`, from the buffer `a`. */
  ghost predicate Silent(start: real, arrivals: seq<Arrival>, i: nat, now: real, n: nat, times: seq<real>,
                         a: Assembly, b: Assembly, msgs: seq<seq<byte>>) {
    Sized(a) && Beating(start, arrivals, i, now, n, times) && BeatOut(a, |times|, b, msgs)
  }

  lemma SilentOnTimeout(start: real, arrivals: seq<Arrival>, i: nat, now: real, n: nat, times: seq<real>,
                        a: Assembly, b: Assembly, msgs: seq<seq<byte>>)
    requires Silent(start, arrivals, i, now, n, times, a, b, msgs)
    requires !InTime(arrivals, i, now, if n == 0 then T1 else T2)
    ensures var later := now + Seconds(if n == 0 then T1 else T2);
            if n < 3 then
              Silent(start, arrivals, i, later, n + 1, times + [later], a, Overwritten(b), msgs + [Overwritten(b).msg])
            else Beaten(start, arrivals, i, times) && i == Heard(start, arrivals, Patience(T1)) &&
                 later == LastHeard(start, arrivals, i) + Patience(T1)
  {
    BeatingOnTimeout(start, arrivals, i, now, n, times);
    BeatOnceMore(a, |times|, b, msgs);
  }

  /** One round of the client's loop in which `select` times out. */
  method Expire(c: HbClient, start: real, arrivals: seq<Arrival>, i: nat, now0: real, times0: seq<real>,
                msgs0: seq<seq<byte>>, ghost a: Assembly, ghost b0: Assembly)
    returns (alive: bool, now: real, times: seq<real>, msgs: seq<seq<byte>>, ghost b: Assembly)
    requires ClientOk(c.State()) && b0 == Buffered(c.State()) && !InTime(arrivals, i, now0, c.wait)
    requires Silent(start, arrivals, i, now0, c.heartbeats, times0, a, b0, msgs0)
    modifies c, c.msg
    ensures alive ==> ClientOk(c.State()) && b == Buffered(c.State()) && c.heartbeats == old(c.heartbeats) + 1
    ensures alive ==> Silent(start, arrivals, i, now, c.heartbeats, times, a, b, msgs)
    ensures !alive ==> Beaten(start, arrivals, i, times) && BeatOut(a, |times|, b, msgs)
    ensures !alive ==> i == Heard(start, arrivals, Patience(T1)) && now == LastHeard(start, arrivals, i) + Patience(T1)
  {
    SilentOnTimeout(start, arrivals, i, now0, c.heartbeats, times0, a, b0, msgs0);
    now, times, b := now0 + Seconds(c.wait), times0, b0;
    alive, msgs := Beat(c, msgs0);
    if alive {
      times, b := times + [now], Overwritten(b);
    }
  }

  /** All such rounds, until something can be read or the client gives up. */
  method Quiet(c: HbClient, start: real, arrivals: seq<Arrival>, i: nat, now0: real)
    returns (alive: bool, now: real, times: seq<real>, msgs: seq<seq<byte>>, ghost b: Assembly)
    requires ClientOk(c.State()) && c.heartbeats == 0 && OnTime(T1, start, arrivals, i, now0, 0)
    modifies c, c.msg
    ensures Beaten(start, arrivals, i, times)
    ensures var k := Heard(start, arrivals, Patience(T1));
            if alive then i < k && now == arrivals[i].at
            else i == k && now == LastHeard(start, arrivals, i) + Patience(T1)
    ensures alive ==> ClientOk(c.State()) && OnTime(T1, start, arrivals, i + 1, now, 0)
    ensures BeatOut(old(Buffered(c.State())), |times|, b, msgs) && (alive ==> b == Buffered(c.State()))
  {
    now, times, msgs, b := now0, [], [], Buffered(c.State());
    ghost var a := b;
    BeatingBegins(start, arrivals, i, now);
    while !InTime(arrivals, i, now, c.wait)
      invariant ClientOk(c.State()) && b == Buffered(c.State())
      invariant Silent(start, arrivals, i, now, c.heartbeats, times, a, b, msgs)
      decreases 4 - c.heartbeats
    {
      alive, now, times, msgs, b := Expire(c, start, arrivals, i, now, times, msgs, a, b);
      if !alive {
        return;
      }
    }
    BeatingOnArrival(start, arrivals, i, now, c.heartbeats, times);
    return true, arrivals[i].at, times, msgs, b;
  }

  lemma AbsorbMore(got: seq<seq<byte>>, a: Assembly, bytes: seq<byte>)
    requires Sized(a) && bytes != []
    ensures var n := Min(a.cnt, |bytes|);
            var msg := Fill(a.msg, a.cnt, bytes[..n]);
            var b := Assembly(msg, Missing(a.cnt, n));
            Absorb(a, bytes).0 == Absorb(b, bytes[n..]).0 &&
            got + Absorb(a, bytes).1 == (if n == a.cnt then got + [msg] else got) + Absorb(b, bytes[n..]).1
  {
    var n := Min(a.cnt, |bytes|);
    var msg := Fill(a.msg, a.cnt, bytes[..n]);
    var more := Absorb(Assembly(msg, Missing(a.cnt, n)), bytes[n..]).1;
    Associative(got, [msg], more);
    assert [] + more == more;
  }

  /** The client reads an arrival; what it does with a message is left open. */
  method Read(c: HbClient, bytes: seq<byte>) returns (got: seq<seq<byte>>)
    requires ClientOk(c.State()) && bytes != []
    modifies c, c.msg
    ensures ClientOk(c.State()) && c.heartbeats == 0
    ensures (Buffered(c.State()), got) == Absorb(old(Buffered(c.State())), bytes)
  {
    var pending := bytes;
    got := [];
    ghost var all := Absorb(Buffered(c.State()), bytes);
    assert [] + all.1 == all.1;
    while true
      invariant ClientOk(c.State()) && pending != []
      invariant Absorb(Buffered(c.State()), pending).0 == all.0
      invariant got + Absorb(Buffered(c.State()), pending).1 == all.1
      decreases |pending|
    {
      AbsorbMore(got, Buffered(c.State()), pending);
      var rc := Min(c.cnt, |pending|);
      var whole := rc == c.cnt;
      c.Received(pending[..rc]);
      if whole {
        got := got + [c.msg[..]];
      }
      pending := pending[rc..];
      if pending == [] {
        break;
      }
    }
    assert c.heartbeats == 0 && got + [] == got;
  }

  /** All that was sent up to the `i`-th arrival, and all that was read. */
  ghost predicate BeatenTo(start: real, arrivals: seq<Arrival>, i: nat, times: seq<real>) {
    var k := Heard(start, arrivals, Patience(T1));
    i <= k && times + BeatTimes(start, arrivals, i, k) == BeatTimes(start, arrivals, 0, k)
  }

  ghost predicate TalkedTo(start: real, arrivals: seq<Arrival>, i: nat, a: Assembly, msgs: seq<seq<byte>>, read: seq<seq<byte>>) {
    var k := Heard(start, arrivals, Patience(T1));
    Sized(a) && i <= k &&
    msgs + Talk(a, start, arrivals, i, k).0 == Talk(Blank(), start, arrivals, 0, k).0 &&
    read + Talk(a, start, arrivals, i, k).1 == Talk(Blank(), start, arrivals, 0, k).1
  }

  /** The buffer at the start. */
  function Blank(): (a: Assembly)
    ensures Sized(a)
  {
    Assembly(seq(MSGSIZE, _ => 0), MSGSIZE)
  }

  lemma NothingYet(start: real, arrivals: seq<Arrival>)
    requires Ordered(start, arrivals)
    ensures OnTime(T1, start, arrivals, 0, start, 0) && BeatenTo(start, arrivals, 0, [])
    ensures TalkedTo(start, arrivals, 0, Blank(), [], [])
  {
    var k := Heard(start, arrivals, Patience(T1));
    var all := BeatTimes(start, arrivals, 0, k);
    var (sent, read) := Talk(Blank(), start, arrivals, 0, k);
    assert arrivals[0..] == arrivals && [] + all == all && [] + sent == sent && [] + read == read;
  }

  lemma BeatTimesOnward(times: seq<real>, start: real, arrivals: seq<Arrival>, i: nat, ts: seq<real>)
    requires BeatenTo(start, arrivals, i, times) && Beaten(start, arrivals, i, ts)
    ensures var k := Heard(start, arrivals, Patience(T1));
            if i < k then BeatenTo(start, arrivals, i + 1, times + ts) else times + ts == BeatTimes(start, arrivals, 0, k)
  {
    var k := Heard(start, arrivals, Patience(T1));
    Associative(times, ts, if i < k then BeatTimes(start, arrivals, i + 1, k) else []);
    assert times + ts + [] == times + ts;
  }

  lemma TalkOnward(start: real, arrivals: seq<Arrival>, i: nat, a: Assembly, msgs: seq<seq<byte>>, read: seq<seq<byte>>,
                   ts: seq<real>, b: Assembly, ms: seq<seq<byte>>)
    requires TalkedTo(start, arrivals, i, a, msgs, read) && Beaten(start, arrivals, i, ts) && BeatOut(a, |ts|, b, ms)
    ensures var k := Heard(start, arrivals, Patience(T1));
            if i < k then
              TalkedTo(start, arrivals, i + 1, Absorb(b, arrivals[i].bytes).0, msgs + ms, read + Absorb(b, arrivals[i].bytes).1)
            else (msgs + ms, read) == Talk(Blank(), start, arrivals, 0, k)
  {
    var k := Heard(start, arrivals, Patience(T1));
    if i < k {
      var (c, got) := Absorb(b, arrivals[i].bytes);
      var (sent, more) := Talk(c, start, arrivals, i + 1, k);
      Associative(msgs, ms, sent);
      Associative(read, got, more);
    } else {
      assert read + [] == read;
    }
  }

  /** The client's loop, from its start until it declares the connection dead. It does so
      T1 + 3 T2 after the last byte before the first silence of that length, neither sooner
      nor later, however the bytes are cut up; it sends a heartbeat exactly when nothing was
      heard for T1, for T2 more, and for T2 more again; and it reads the messages completed. */
  method ClientMain(start: real, arrivals: seq<Arrival>)
    returns (dead: real, times: seq<real>, msgs: seq<seq<byte>>, read: seq<seq<byte>>)
    requires Ordered(start, arrivals)
    ensures var patience := Seconds(T1 + 3 * T2);
            var k := Heard(start, arrivals, patience);
            dead == LastHeard(start, arrivals, k) + patience && times == BeatTimes(start, arrivals, 0, k) &&
            (msgs, read) == Talk(Blank(), start, arrivals, 0, k)
  {
    var c := new HbClient();
    var i := 0;
    dead, times, msgs, read := start, [], [], [];
    NothingYet(start, arrivals);
    while true
      invariant ClientOk(c.State()) && fresh(c) && fresh(c.msg) && c.heartbeats == 0
      invariant OnTime(T1, start, arrivals, i, dead, 0) && BeatenTo(start, arrivals, i, times)
      invariant TalkedTo(start, arrivals, i, Buffered(c.State()), msgs, read)
      decreases |arrivals| - i
    {
      ghost var a := Buffered(c.State());
      var alive, ts, ms;
      ghost var b;
      alive, dead, ts, ms, b := Quiet(c, start, arrivals, i, dead);
      BeatTimesOnward(times, start, arrivals, i, ts);
      TalkOnward(start, arrivals, i, a, msgs, read, ts, b, ms);
      times, msgs := times + ts, msgs + ms;
      if !alive {
        return;
      }
      var got := Read(c, arrivals[i].bytes);
      read := read + got;
      i := i + 1;
    }
  }

  // ---- which messages these are ----

  /** A stream in messages, and what is left. */
  function Pieces(stream: seq<byte>): seq<seq<byte>> {
    if |stream| < MSGSIZE then [] else [stream[..MSGSIZE]] + Pieces(stream[MSGSIZE..])
  }

  function Tail(stream: seq<byte>): seq<byte> {
    if |stream| < MSGSIZE then stream else Tail(stream[MSGSIZE..])
  }

  /** However it is cut up, what arrives is put together again. */
  lemma {:induction false} AbsorbedIsWhole(a: Assembly, bytes: seq<byte>)
    requires Sized(a)
    ensures Absorb(a, bytes).1 == Pieces(a.Part() + bytes)
    ensures Absorb(a, bytes).0.Part() == Tail(a.Part() + bytes)
    decreases |bytes|
  {
    var s := a.Part() + bytes;
    if bytes == [] {
      assert s == a.Part();
    } else {
      var n := Min(a.cnt, |bytes|);
      var msg := Fill(a.msg, a.cnt, bytes[..n]);
      var b := Assembly(msg, Missing(a.cnt, n));
      AbsorbedIsWhole(b, bytes[n..]);
      if n == a.cnt {
        assert msg == s[..MSGSIZE] && b.Part() + bytes[n..] == s[MSGSIZE..];
      } else {
        assert b.Part() + bytes[n..] == s;
      }
    }
  }

  lemma {:induction false} PiecesAppend(s: seq<byte>, t: seq<byte>)
    ensures Pieces(s + t) == Pieces(s) + Pieces(Tail(s) + t) && Tail(s + t) == Tail(Tail(s) + t)
    decreases |s|
  {
    if |s| < MSGSIZE {
      assert Pieces(s) + Pieces(s + t) == Pieces(s + t);
    } else {
      assert (s + t)[..MSGSIZE] == s[..MSGSIZE] && (s + t)[MSGSIZE..] == s[MSGSIZE..] + t;
      PiecesAppend(s[MSGSIZE..], t);
      Associative([s[..MSGSIZE]], Pieces(s[MSGSIZE..]), Pieces(Tail(s) + t));
    }
  }

  /** Before the `j`-th arrival the client is silent for less than T1 seconds. */
  ghost predicate Prompt(start: real, arrivals: seq<Arrival>, j: nat)
    requires j < |arrivals|
  {
    arrivals[j].at < LastHeard(start, arrivals, j) + Seconds(T1)
  }

  /** The messages read are those of the stream, provided that whenever the client sends a
      heartbeat it is between messages. */
  lemma {:induction false} StreamIsRead(a: Assembly, start: real, arrivals: seq<Arrival>, i: nat, k: nat)
    requires Sized(a) && i <= k <= |arrivals|
    requires forall j :: i <= j < k ==> Prompt(start, arrivals, j) || Tail(a.Part() + Coming(arrivals, i, j)) == []
    ensures Talk(a, start, arrivals, i, k).1 == Pieces(a.Part() + Coming(arrivals, i, k))
    decreases k - i
  {
    var s := a.Part();
    if i == k {
      assert s + [] == s;
    } else {
      var beats := TimesOut(LastHeard(start, arrivals, i), arrivals[i].at, 1);
      var b := if beats == [] then a else Overwritten(a);
      assert s + [] == s && Tail(s) == s;
      assert Prompt(start, arrivals, i) || Tail(s + Coming(arrivals, i, i)) == [];
      assert b.Part() == s;
      var bytes := arrivals[i].bytes;
      var c := Absorb(b, bytes).0;
      AbsorbedIsWhole(b, bytes);
      forall j | i + 1 <= j < k
        ensures Prompt(start, arrivals, j) || Tail(c.Part() + Coming(arrivals, i + 1, j)) == []
      {
        Associative(s, bytes, Coming(arrivals, i + 1, j));
        PiecesAppend(s + bytes, Coming(arrivals, i + 1, j));
      }
      StreamIsRead(c, start, arrivals, i + 1, k);
      Associative(s, bytes, Coming(arrivals, i + 1, k));
      PiecesAppend(s + bytes, Coming(arrivals, i + 1, k));
    }
  }

  /** Otherwise what is there of a message is kept exactly if it begins like a heartbeat. */
  lemma HeartbeatOverwrites(a: Assembly)
    requires Sized(a)
    ensures Overwritten(a).Part() == a.Part() <==>
            a.Part()[..Min(4, |a.Part()|)] == Net(MSG_HEARTBEAT)[..Min(4, |a.Part()|)]
  {
    var u, n := Overwritten(a).msg, Min(4, |a.Part()|);
    assert forall i :: 0 <= i < MSGSIZE ==> u[i] == if i < 4 then Net(MSG_HEARTBEAT)[i] else a.msg[i];
    if a.Part()[..n] == Net(MSG_HEARTBEAT)[..n] {
      forall i | 0 <= i < |a.Part()| ensures u[i] == a.msg[i] {
        assert i < 4 ==> a.Part()[..n][i] == Net(MSG_HEARTBEAT)[..n][i];
      }
    }
    if Overwritten(a).Part() == a.Part() {
      forall i | 0 <= i < n ensures a.Part()[i] == Net(MSG_HEARTBEAT)[i] {
        assert Overwritten(a).Part()[i] == a.Part()[i];
      }
    }
  }

  // ---- what the server makes of the stream of bytes ----

  predicate Known(kind: nat) {
    kind == MSG_TYPE1 || kind == MSG_TYPE2 || kind == MSG_HEARTBEAT
  }

  /** The type of the message that starts at `at`. */
  function Kind(stream: seq<byte>, at: nat): nat
    requires at + 4 <= |stream|
  {
    FromNet(stream[at..at + 4])
  }

  /** The heartbeats among the complete messages from `at` on, up to the first of unknown type. */
  function Echoed(stream: seq<byte>, at: nat): seq<seq<byte>>
    decreases |stream| - at
  {
    if |stream| < at + MSGSIZE || !Known(Kind(stream, at)) then []
    else
      (if Kind(stream, at) == MSG_HEARTBEAT then [stream[at..at + MSGSIZE]] else []) + Echoed(stream, at + MSGSIZE)
  }

  /** Where the first complete message of unknown type from `at` on ends. */
  function FirstUnknown(stream: seq<byte>, at: nat): Option<nat>
    decreases |stream| - at
  {
    if |stream| < at + MSGSIZE then None
    else if !Known(Kind(stream, at)) then Some(at + MSGSIZE)
    else FirstUnknown(stream, at + MSGSIZE)
  }

  /** All messages that end before `at` have been dealt with. */
  ghost predicate Through(heard: seq<byte>, at: nat, sent: seq<seq<byte>>) {
    Echoed(heard, 0) == sent + Echoed(heard, at) && FirstUnknown(heard, 0) == FirstUnknown(heard, at)
  }

  /** From `at` on the stream is the received part of a message, what can be read, and what
      will come. */
  ghost predicate Stands(s: Server, pending: seq<byte>, future: seq<byte>, heard: seq<byte>, at: nat) {
    |s.msg| == MSGSIZE && 0 < s.cnt <= MSGSIZE && at <= |heard| &&
    heard[at..] == s.msg[..MSGSIZE - s.cnt] + (pending + future)
  }

  lemma ThroughEnds(heard: seq<byte>, at: nat, sent: seq<seq<byte>>)
    requires Through(heard, at, sent) && |heard| < at + MSGSIZE
    ensures FirstUnknown(heard, 0) == None && Echoed(heard, 0) == sent
  {
  }

  lemma ThroughMessage(heard: seq<byte>, at: nat, sent: seq<seq<byte>>)
    requires at + MSGSIZE <= |heard| && Through(heard, at, sent)
    ensures if !Known(Kind(heard, at)) then
              FirstUnknown(heard, 0) == Some(at + MSGSIZE) && Echoed(heard, 0) == sent
            else
              Through(heard, at + MSGSIZE,
                      sent + if Kind(heard, at) == MSG_HEARTBEAT then [heard[at..at + MSGSIZE]] else [])
  {
    Associative(sent, if Kind(heard, at) == MSG_HEARTBEAT then [heard[at..at + MSGSIZE]] else [],
                Echoed(heard, at + MSGSIZE));
  }

  lemma PartStands(s: Server, b: seq<byte>, rest: seq<byte>, future: seq<byte>, heard: seq<byte>, at: nat)
    requires Stands(s, b + rest, future, heard, at) && |b| < s.cnt
    ensures ServerData(s, b).Go? && ServerData(s, b).sent == []
    ensures Stands(ServerData(s, b).next, rest, future, heard, at)
  {
    var v := ServerData(s, b).next;
    assert v.msg[..MSGSIZE - v.cnt] == s.msg[..MSGSIZE - s.cnt] + b;
    Associative(b, rest, future);
    Associative(s.msg[..MSGSIZE - s.cnt], b, rest + future);
  }

  lemma WholeStands(s: Server, b: seq<byte>, rest: seq<byte>, future: seq<byte>, heard: seq<byte>, at: nat)
    requires Stands(s, b + rest, future, heard, at) && 0 < |b| == s.cnt
    ensures at + MSGSIZE <= |heard| && heard[at..at + MSGSIZE] == Fill(s.msg, s.cnt, b)
    ensures heard[at + MSGSIZE..] == rest + future
    ensures Kind(heard, at) == FromNet(Fill(s.msg, s.cnt, b)[..4])
  {
    var msg := Fill(s.msg, s.cnt, b);
    assert heard[at..] == msg + (rest + future);
    assert heard[at..][..MSGSIZE] == msg && heard[at..][MSGSIZE..] == rest + future;
    assert heard[at..at + 4] == heard[at..at + MSGSIZE][..4];
  }

  /** One `recv` and what follows it. */
  method Take(s: HbServer, pending: seq<byte>, sent: seq<seq<byte>>, ghost future: seq<byte>, ghost heard: seq<byte>, ghost at: nat)
    returns (known: bool, rest: seq<byte>, sent': seq<seq<byte>>, ghost at': nat)
    requires ServerOk(s.State()) && pending != []
    requires Stands(s.State(), pending, future, heard, at) && Through(heard, at, sent)
    modifies s, s.msg
    ensures |rest| < |pending|
    ensures known ==> ServerOk(s.State()) && s.missed == 0
    ensures known ==> Stands(s.State(), rest, future, heard, at') && Through(heard, at', sent')
    ensures !known ==> FirstUnknown(heard, 0) == Some(|heard| - |rest + future|) && sent' == Echoed(heard, 0)
  {
    ghost var s0 := s.State();
    var rc := Min(s.cnt, |pending|);
    var b := pending[..rc];
    rest := pending[rc..];
    assert pending == b + rest;
    at' := at;
    if rc < s.cnt {
      PartStands(s0, b, rest, future, heard, at);
    } else {
      WholeStands(s0, b, rest, future, heard, at);
      ThroughMessage(heard, at, sent);
      at' := at + MSGSIZE;
    }
    var out;
    known, out := s.Received(b);
    sent' := sent + if known && out != [] then [out] else [];
    assert sent + [] == sent;
    assert [] + (rest + future) == rest + future;
  }

  /** Reading goes on as long as something is readable. */
  method Drain(s: HbServer, bytes: seq<byte>, sent0: seq<seq<byte>>, ghost future: seq<byte>, ghost heard: seq<byte>, ghost at0: nat)
    returns (known: bool, sent: seq<seq<byte>>, ghost at: nat)
    requires ServerOk(s.State()) && bytes != []
    requires Stands(s.State(), bytes, future, heard, at0) && Through(heard, at0, sent0)
    modifies s, s.msg
    ensures known ==> ServerOk(s.State()) && s.missed == 0
    ensures known ==> Stands(s.State(), [], future, heard, at) && Through(heard, at, sent)
    ensures !known ==> sent == Echoed(heard, 0) && FirstUnknown(heard, 0).Some? &&
                       |heard| - |bytes| - |future| < FirstUnknown(heard, 0).value <= |heard| - |future|
  {
    var pending := bytes;
    known, pending, sent, at := Take(s, pending, sent0, future, heard, at0);
    while known && pending != []
      invariant |pending| < |bytes|
      invariant known ==> ServerOk(s.State()) && s.missed == 0
      invariant known ==> Stands(s.State(), pending, future, heard, at) && Through(heard, at, sent)
      invariant !known ==> FirstUnknown(heard, 0) == Some(|heard| - |pending + future|) && sent == Echoed(heard, 0)
      decreases |pending|
    {
      known, pending, sent, at := Take(s, pending, sent, future, heard, at);
    }
  }

  /** What the arrivals from the `i`-th to before the `k`-th bring. */
  ghost function Coming(arrivals: seq<Arrival>, i: nat, k: nat): seq<byte>
    requires i <= k <= |arrivals|
    decreases k - i
  {
    if i == k then [] else arrivals[i].bytes + Coming(arrivals, i + 1, k)
  }

  /** The first complete message of unknown type ends in the `i`-th arrival. */
  ghost predicate UnknownIn(heard: seq<byte>, arrivals: seq<Arrival>, i: nat, k: nat)
    requires i < k <= |arrivals|
  {
    FirstUnknown(heard, 0).Some? &&
    |heard| - |Coming(arrivals, i, k)| < FirstUnknown(heard, 0).value <= |heard| - |Coming(arrivals, i + 1, k)|
  }

  /** The server reads the `i`-th arrival. */
  method Hear(s: HbServer, arrivals: seq<Arrival>, i: nat, sent0: seq<seq<byte>>, ghost k: nat, ghost heard: seq<byte>, ghost at0: nat)
    returns (known: bool, sent: seq<seq<byte>>, ghost at: nat)
    requires i < k <= |arrivals| && arrivals[i].bytes != []
    requires ServerOk(s.State()) && Through(heard, at0, sent0)
    requires Stands(s.State(), [], Coming(arrivals, i, k), heard, at0)
    modifies s, s.msg
    ensures known ==> ServerOk(s.State()) && s.missed == 0
    ensures known ==> Through(heard, at, sent) && Stands(s.State(), [], Coming(arrivals, i + 1, k), heard, at)
    ensures !known ==> sent == Echoed(heard, 0) && UnknownIn(heard, arrivals, i, k)
  {
    assert [] + Coming(arrivals, i, k) == Coming(arrivals, i, k);
    known, sent, at := Drain(s, arrivals[i].bytes, sent0, Coming(arrivals, i + 1, k), heard, at0);
  }

  datatype Ending = GaveUp(at: real) | UnknownType(at: real)

  /** The rounds of the server's loop in which `select` times out, until something can be read
      or the server gives up. What it has of a message stays as it is. */
  method Await(s: HbServer, start: real, arrivals: seq<Arrival>, i: nat, now0: real) returns (alive: bool, now: real)
    requires ServerOk(s.State()) && s.missed == 0 && OnTime(T1 + T2, start, arrivals, i, now0, 0)
    modifies s
    ensures alive ==> ServerOk(s.State()) && s.cnt == old(s.cnt)
    ensures alive ==> i < Heard(start, arrivals, Patience(T1 + T2)) && now == arrivals[i].at
    ensures alive ==> OnTime(T1 + T2, start, arrivals, i + 1, now, 0)
    ensures !alive ==> i == Heard(start, arrivals, Patience(T1 + T2))
    ensures !alive ==> now == LastHeard(start, arrivals, i) + Patience(T1 + T2)
  {
    now := now0;
    while !InTime(arrivals, i, now, s.wait)
      invariant ServerOk(s.State()) && s.cnt == old(s.cnt)
      invariant OnTime(T1 + T2, start, arrivals, i, now, s.missed)
      decreases 4 - s.missed
    {
      TimeOfTimeout(T1 + T2, start, arrivals, i, now, s.missed);
      now := now + Seconds(s.wait);
      alive := s.TimedOut();
      if !alive {
        return;
      }
    }
    TimeOfArrival(T1 + T2, start, arrivals, i, now, s.missed);
    return true, arrivals[i].at;
  }

  /** The server's loop, until it ends. It echoes the heartbeats it hears. It gives up
      T1 + 4 T2 after the last byte before the first silence of that length, unless before
      that a complete message is of unknown type: then it exits when the last byte of that
      message arrives. */
  method ServerMain(start: real, arrivals: seq<Arrival>) returns (end: Ending, sent: seq<seq<byte>>)
    requires Ordered(start, arrivals)
    ensures var patience := Seconds(T1 + 4 * T2);
            var k := Heard(start, arrivals, patience);
            var heard := Coming(arrivals, 0, k);
            sent == Echoed(heard, 0) &&
            match end
            case GaveUp(at) => FirstUnknown(heard, 0) == None && at == LastHeard(start, arrivals, k) + patience
            case UnknownType(at) => exists i :: 0 <= i < k && UnknownIn(heard, arrivals, i, k) && at == arrivals[i].at
  {
    var s := new HbServer();
    var now, i := start, 0;
    sent := [];
    ghost var k := Heard(start, arrivals, Patience(T1 + T2));
    ghost var heard, at := Coming(arrivals, 0, k), 0;
    Begins(heard, s.State());
    assert arrivals[0..] == arrivals;
    while true
      invariant ServerOk(s.State()) && fresh(s) && fresh(s.msg) && s.missed == 0
      invariant i <= k && OnTime(T1 + T2, start, arrivals, i, now, 0)
      invariant Through(heard, at, sent) && Stands(s.State(), [], Coming(arrivals, i, k), heard, at)
      decreases k - i
    {
      var alive;
      alive, now := Await(s, start, arrivals, i, now);
      if !alive {
        ThroughEnds(heard, at, sent);
        return GaveUp(now), sent;
      }
      var known;
      known, sent, at := Hear(s, arrivals, i, sent, k, heard, at);
      if !known {
        return UnknownType(now), sent;
      }
      i := i + 1;
    }
  }

  lemma Begins(heard: seq<byte>, s: Server)
    requires |s.msg| == MSGSIZE == s.cnt
    ensures Through(heard, 0, []) && Stands(s, [], heard, heard, 0)
  {
    assert [] + Echoed(heard, 0) == Echoed(heard, 0);
    assert s.msg[..0] + ([] + heard) == heard;
  }
}
