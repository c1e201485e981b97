/** Whole runs of the retransmitting writer (`xout3.c`), its lossy peer (`extsys.c`) and the
    two byte streams between them. */
module Protocol {
  import opened Bytes
  import opened Records
  import opened TimeVals
  import opened TimerList
  import opened WriterModel

  /** What became of a message. */
  datatype Fate = Live | Acked | Dropped(at: int)

  /** The writer, the bytes in flight either way, and the history of the run: what each
      cookie stands for, when it was sent, the clock reading that armed its timer last, what
      became of it; the cookies in the order of
      sending, of which the peer has read `read` many; and the cookies in the order of
      acknowledging, of which the writer has taken in `taken` many. */
  datatype System = System(
    w: Writer, clock: int, now: TimeVal,
    toPeer: seq<byte>, toWriter: seq<byte>, peerUp: bool,
    data: seq<seq<byte>>, sends: seq<seq<int>>, armed: seq<int>, fates: seq<Fate>,
    log: seq<nat>, read: nat, acks: seq<nat>, taken: nat)

  /** Anything that can happen. `at` is the moment (in microseconds) something is sent or
      dropped, `t` the clock reading that arms a timer. */
  datatype Step =
    | Input(data: seq<byte>, at: int, t: TimeVal)
    | Sample(now: TimeVal)
    | Turn(at: int, t: TimeVal)
    | Receiving(n: nat)
    | PeerReads(ignore: bool)

  function Start(now: TimeVal): System {
    System(WriterModel.Initial(), Micros(now), now, [], [], true, [], [], [], [], [], 0, [], 0)
  }

  /** The peer's buffer. */
  const PEERBUF := 128
  const COOKIESZ := 4

  function AckFrame(cookie: seq<byte>): seq<byte> {
    [ACK] + cookie
  }

  predicate Follows(s: System, at: int, t: TimeVal) {
    Normal(t) && s.clock <= at <= Micros(t)
  }

  /** When a step can happen. A run stops where the program would exit: no free record, or
      the message counter at its end. */
  ghost predicate Enabled(s: System, step: Step) {
    match step
    case Input(data, at, t) =>
      |data| <= BUFSZ && s.w.msgid < WORDS && Follows(s, at, t) && Accept(s.w, data, t).Ok?
    case Sample(now) =>
      Normal(now) && s.clock <= Micros(now)
    case Turn(at, t) =>
      s.w.timers != [] && Ready(s.w) && !Before(s.now, s.w.timers[0].tv) && Follows(s, at, t) &&
      s.w.mr[s.w.timers[0].arg].cookie < |s.fates| == |s.sends| == |s.armed| && Fire(s.w, t).Ok?
    case Receiving(n) =>
      0 < n <= |s.toWriter| && |s.w.ack| + n <= ACKSZ && Receive(s.w, s.toWriter[..n]).Ok? &&
      forall i :: 0 <= i < |s.w.mr| && !s.w.mr[i].Free() ==> s.w.mr[i].cookie < |s.fates|
    case PeerReads(ignore) =>
      s.peerUp && !NextRecord(s.toPeer, PEERBUF).0.Ended? &&
      (NextRecord(s.toPeer, PEERBUF).0.Record? ==> COOKIESZ <= |NextRecord(s.toPeer, PEERBUF).0.bytes|)
  }

  function TakeInput(s: System, data: seq<byte>, at: int, t: TimeVal): System
    requires Enabled(s, Input(data, at, t))
  {
    var r := Accept(s.w, data, t);
    s.(w := r.w, clock := Micros(t), toPeer := s.toPeer + r.sent,
       data := s.data + [data], sends := s.sends + [[at]], armed := s.armed + [Micros(t)],
       fates := s.fates + [Live], log := s.log + [s.w.msgid])
  }

  function TakeTurn(s: System, at: int, t: TimeVal): System
    requires Enabled(s, Turn(at, t))
  {
    var r := Fire(s.w, t);
    var c := s.w.mr[s.w.timers[0].arg].cookie;
    match s.w.timers[0].func
    case LostAck =>
      s.(w := r.w, clock := Micros(t), toPeer := s.toPeer + r.sent,
         sends := s.sends[c := s.sends[c] + [at]], armed := s.armed[c := Micros(t)], log := s.log + [c])
    case Drop =>
      s.(w := r.w, clock := at, fates := s.fates[c := Dropped(at)])
  }

  function TakeBytes(s: System, n: nat): System
    requires Enabled(s, Receiving(n))
  {
    var b := s.toWriter[..n];
    var v := s.(w := Receive(s.w, b).w, toWriter := s.toWriter[n..]);
    var ack := s.w.ack + b;
    if |ack| < ACKSZ then v
    else
      var i := FindRec(s.w.mr, FromHost(ack[1..]));
      v.(taken := s.taken + 1,
         fates := if ack[0] == ACK && i < |s.w.mr| then s.fates[s.w.mr[i].cookie := Acked] else s.fates)
  }

  /** The peer reads a record; it may ignore it, else it sends the cookie back. A record
      larger than its buffer makes it give up. */
  function PeerTakes(s: System, ignore: bool): System
    requires Enabled(s, PeerReads(ignore))
  {
    var (o, rest) := NextRecord(s.toPeer, PEERBUF);
    if o.TooLong? then s.(toPeer := rest, peerUp := false)
    else if ignore then s.(toPeer := rest, read := s.read + 1)
    else
      s.(toPeer := rest, read := s.read + 1,
         toWriter := s.toWriter + AckFrame(o.bytes[..COOKIESZ]),
         acks := s.acks + [FromHost(o.bytes[..COOKIESZ])])
  }

  function Next(s: System, step: Step): System
    requires Enabled(s, step)
  {
    match step
    case Input(data, at, t) => TakeInput(s, data, at, t)
    case Sample(now) => s.(now := now, clock := Micros(now))
    case Turn(at, t) => TakeTurn(s, at, t)
    case Receiving(n) => TakeBytes(s, n)
    case PeerReads(ignore) => PeerTakes(s, ignore)
  }

  // ---- the invariant of all runs ----

  const T1_MICROS := 1000 * T1
  const T2_MICROS := 1000 * T2

  predicate Below(cookies: seq<nat>, n: nat) {
    forall i :: 0 <= i < |cookies| ==> cookies[i] < n
  }

  /** The packets of these cookies, one after the other. */
  function Wire(data: seq<seq<byte>>, cookies: seq<nat>): seq<byte>
    requires |data| <= WORDS && Storable(data)
    requires Below(cookies, |data|)
  {
    if cookies == [] then [] else Packet(cookies[0], data[cookies[0]]) + Wire(data, cookies[1..])
  }

  function AckWire(cookies: seq<nat>): seq<byte>
    requires Below(cookies, WORDS)
  {
    if cookies == [] then [] else AckFrame(Host(cookies[0])) + AckWire(cookies[1..])
  }

  predicate Storable(data: seq<seq<byte>>) {
    forall c :: 0 <= c < |data| ==> |data[c]| <= BUFSZ
  }

  /** Sent once, or twice T1 apart; dropped only T2 after the second time. Its timer was last
      armed after its last sending. */
  predicate Timely(sends: seq<int>, armed: int, fate: Fate, clock: int) {
    1 <= |sends| <= 2 && sends[|sends| - 1] <= armed <= clock &&
    (forall i :: 0 <= i < |sends| ==> sends[i] <= clock) &&
    (|sends| == 2 ==> sends[0] + T1_MICROS <= sends[1]) &&
    (fate.Dropped? ==> |sends| == 2 && sends[1] + T2_MICROS <= fate.at <= clock)
  }

  ghost predicate HistoryOk(s: System) {
    |s.data| == |s.sends| == |s.armed| == |s.fates| == s.w.msgid <= WORDS && Storable(s.data) &&
    Normal(s.now) && Micros(s.now) <= s.clock &&
    (forall c :: 0 <= c < |s.fates| ==> Timely(s.sends[c], s.armed[c], s.fates[c], s.clock))
  }

  /** The records in use hold live messages. */
  ghost predicate RecordsLive(s: System) {
    |s.data| == |s.fates| == s.w.msgid &&
    (forall i :: 0 <= i < |s.w.mr| && !s.w.mr[i].Free() ==>
       s.w.mr[i].cookie < |s.data| && s.fates[s.w.mr[i].cookie].Live? &&
       s.w.mr[i].data == s.data[s.w.mr[i].cookie])
  }

  ghost predicate InRecord(mr: seq<MsgRec>, c: nat) {
    exists i :: 0 <= i < |mr| && !mr[i].Free() && mr[i].cookie == c
  }

  /** And every live message is in one. */
  ghost predicate LiveRecorded(s: System) {
    forall c :: 0 <= c < |s.fates| && s.fates[c].Live? ==> InRecord(s.w.mr, c)
  }

  /** A record's timer says how often its message was sent, and it is due exactly T1 or T2
      after it was armed. */
  ghost predicate TimersTimely(w: Writer, sends: seq<seq<int>>, armed: seq<int>) {
    forall t :: t in w.timers && t.arg < |w.mr| && w.mr[t.arg].cookie < |sends| && w.mr[t.arg].cookie < |armed| ==>
      TimerTimely(t, sends[w.mr[t.arg].cookie], armed[w.mr[t.arg].cookie])
  }

  predicate TimerTimely(t: Timer, sends: seq<int>, armed: int) {
    match t.func
    case LostAck => |sends| == 1 && Micros(t.tv) == armed + T1_MICROS
    case Drop => |sends| == 2 && Micros(t.tv) == armed + T2_MICROS
  }

  /** The bytes on their way to the peer are the packets it has not read. */
  ghost predicate OutboundOk(s: System) {
    |s.data| <= WORDS && Storable(s.data) && s.read <= |s.log| &&
    Below(s.log, |s.data|) &&
    (s.peerUp ==> s.toPeer == Wire(s.data, s.log[s.read..]))
  }

  ghost predicate SendsCounted(s: System) {
    forall c :: 0 <= c < |s.sends| ==> multiset(s.log)[c] == |s.sends[c]|
  }

  /** The half-read ACK and the bytes behind it are whole ACK frames, each for a record the
      peer has read; a message counts as acknowledged only through one the writer took in. */
  ghost predicate InboundOk(s: System) {
    s.taken <= |s.acks| && s.read <= |s.log| && |s.w.ack| < ACKSZ &&
    Below(s.acks, WORDS) && (forall i :: 0 <= i < |s.acks| ==> s.acks[i] in s.log[..s.read]) &&
    s.w.ack + s.toWriter == AckWire(s.acks[s.taken..]) &&
    (forall c :: 0 <= c < |s.fates| && s.fates[c].Acked? ==> c in s.acks[..s.taken])
  }

  /** A message whose ACK the writer took in is settled. */
  ghost predicate AcksSettle(s: System) {
    forall k :: 0 <= k < s.taken && k < |s.acks| ==> s.acks[k] < |s.fates| && !s.fates[s.acks[k]].Live?
  }

  /** Every message is acknowledged, dropped or in a record. */
  ghost predicate Balanced(s: System) {
    s.w.msgid == Settled(s.fates) + InUse(s.w.mr)
  }

  function Settled(fates: seq<Fate>): nat {
    if fates == [] then 0 else (if fates[0].Live? then 0 else 1) + Settled(fates[1..])
  }

  function InUse(mr: seq<MsgRec>): nat {
    if mr == [] then 0 else (if mr[0].Free() then 0 else 1) + InUse(mr[1..])
  }

  ghost predicate SysInv(s: System) {
    Inv(s.w) && HistoryOk(s) && RecordsLive(s) && LiveRecorded(s) && TimersTimely(s.w, s.sends, s.armed) &&
    OutboundOk(s) && SendsCounted(s) && InboundOk(s) && AcksSettle(s) && Balanced(s)
  }
}
